/** What RTS_SET, RTS_UNSET and sched_proc do, for every process: its slot, the other slots and every queue. */
module RunQueueExact {
  import opened Lists
  import opened RunQueue

  /** `x` was made `v`, and it preempted the current process if `preempts`; nothing else changed. */
  ghost predicate Slots(s: Sched, t: Sched, p: nat, v: Slot, preempts: bool)
    requires s.Shape() && p < |s.slots|
  {
    && t.cur == s.cur && |t.slots| == |s.slots| && t.slots[p] == v && (preempts ==> s.cur != p && s.cur != IDLE)
    && forall x :: 0 <= x < |s.slots| && x != p ==>
         t.slots[x] == if preempts && x == s.cur then s.slots[x].(flags := s.slots[x].flags + {PREEMPTED}) else s.slots[x]
  }

  /** Every queue has lost `p` and who was preempted, and `p` is last on queue `a` if it is to run. */
  ghost predicate Lines(s: Sched, t: Sched, p: nat, a: nat, runs: bool, preempts: bool)
    requires s.Shape() && (preempts ==> s.cur != IDLE)
  {
    && |t.queues| == |s.queues|
    && forall b :: 0 <= b < |s.queues| ==>
         var q := if preempts then Without(Without(s.queues[b], p), s.cur) else Without(s.queues[b], p);
         t.queues[b] == if runs && b == a then q + [p] else q
  }

  /** A process with priority `a` that becomes `p`'s takes the CPU from the current process, which is another one. */
  predicate Preempts(s: Sched, p: nat, a: nat)
    requires s.Shape() && p < |s.slots|
  {
    s.cur != IDLE && s.cur != p && s.slots[s.cur].preemptible && a < s.slots[s.cur].priority
  }

  lemma NotQueued(s: Sched, p: nat)
    requires s.Shape() && Filed(s) && p < |s.slots|
    ensures forall b :: 0 <= b < |s.queues| && !s.Queued(p, b) ==> Without(s.queues[b], p) == s.queues[b]
  {
    forall b | 0 <= b < |s.queues| && !s.Queued(p, b) ensures Without(s.queues[b], p) == s.queues[b] {
      WithoutAbsent(s.queues[b], p);
    }
  }

  /** RTS_SET adds the flags; the process leaves its queue unless it stays runnable. */
  lemma SetExact(s: Sched, p: nat, f: set<Flag>)
    requires s.Shape() && Filed(s) && p < |s.slots|
    ensures var t, v := RtsSet(s, p, f), s.slots[p];
      && Slots(s, t, p, v.(flags := v.flags + f), false)
      && if v.flags + f == {} then t.queues == s.queues else Lines(s, t, p, 0, false, false)
  {
    NotQueued(s, p);
  }

  /** RTS_UNSET removes the flags; a process that becomes runnable goes last on the queue of its priority and
      preempts a current process that is less urgent and preemptible. */
  lemma UnsetExact(s: Sched, p: nat, f: set<Flag>)
    requires s.Shape() && Filed(s) && p < |s.slots|
    ensures var t, v := RtsUnset(s, p, f), s.slots[p];
      var runs := v.flags != {} && v.flags - f == {};
      && Slots(s, t, p, v.(flags := v.flags - f), runs && Preempts(s, p, v.priority))
      && if runs then Lines(s, t, p, v.priority, true, Preempts(s, p, v.priority)) else t.queues == s.queues
  {
    var v := s.slots[p];
    if v.flags != {} && v.flags - f == {} {
      var u := s.With(p, v.(flags := v.flags - f));
      NotQueued(s, p);
      EnqueueExact(s, u, p);
    }
  }

  lemma EnqueueSlots(u: Sched, p: nat)
    requires u.Shape() && p < |u.slots|
    ensures Slots(u, Enqueue(u, p), p, u.slots[p], Preempts(u, p, u.slots[p].priority))
  {
  }

  lemma EnqueueLine(u: Sched, p: nat, b: nat)
    requires u.Shape() && p < |u.slots| && b < NR_SCHED_QUEUES && p !in u.queues[b]
    requires u.cur != IDLE && u.cur != p && !u.Queued(u.cur, b) ==> u.cur !in u.queues[b]
    ensures var preempts := Preempts(u, p, u.slots[p].priority);
      var q := if preempts then Without(Without(u.queues[b], p), u.cur) else Without(u.queues[b], p);
      Enqueue(u, p).queues[b] == if b == u.slots[p].priority then q + [p] else q
  {
    WithoutAbsent(u.queues[b], p);
    if u.cur != IDLE && u.cur !in u.queues[b] { WithoutAbsent(u.queues[b], u.cur); }
  }

  lemma EnqueueExact(s: Sched, u: Sched, p: nat)
    requires s.Shape() && Filed(s) && p < |s.slots| && s.slots[p].flags != {}
    requires u.Shape() && |u.slots| == |s.slots| && u == s.With(p, u.slots[p])
    ensures var t, a := Enqueue(u, p), u.slots[p].priority;
      Slots(s, t, p, u.slots[p], Preempts(s, p, a)) && Lines(s, t, p, a, true, Preempts(s, p, a))
  {
    var t, a := Enqueue(u, p), u.slots[p].priority;
    EnqueueSlots(u, p);
    assert Preempts(u, p, a) == Preempts(s, p, a);
    forall b | 0 <= b < NR_SCHED_QUEUES
      ensures var q := if Preempts(s, p, a) then Without(Without(s.queues[b], p), s.cur) else Without(s.queues[b], p);
        t.queues[b] == if b == a then q + [p] else q
    {
      assert !s.Queued(p, b);
      assert s.cur != IDLE && s.cur != p ==> s.Queued(s.cur, b) == u.Queued(u.cur, b);
      EnqueueLine(u, p, b);
    }
  }

  // ---------------------------------------------------------------- sched_proc

  /** The range that sched_proc accepts; sixteen is no queue. */
  predicate Accepted(priority: int, quantum: int) { -1 <= priority <= 16 && (quantum == -1 || quantum >= 1) }

  /** The slot of a process that was given a priority and a quantum, where -1 leaves them as they are. */
  function Granted(v: Slot, priority: int, quantum: int, cycles: nat): Slot
    requires -1 <= priority
  {
    Slot(v.flags - {NO_QUANTUM}, if priority == -1 then v.priority else priority, v.preemptible,
      if quantum == -1 then v.timeLeft else cycles, if quantum == -1 then v.quantum else quantum, v.magic)
  }

  /** `p` has its new terms; if they make or leave it runnable it is last on its new queue, and has preempted the
      current process if that is less urgent now. */
  ghost predicate Rescheduled(s: Sched, t: Sched, p: nat, v: Slot)
    requires s.Shape() && p < |s.slots|
  {
    var preempts := v.flags == {} && Preempts(s, p, v.priority);
    Slots(s, t, p, v, preempts) && Lines(s, t, p, v.priority, v.flags == {}, preempts)
  }

  /** The process without its place on the queue. */
  function Taken(s: Sched, p: nat): (t: Sched)
    requires s.Shape() && p < |s.slots|
    ensures t.Shape() && |t.slots| == |s.slots|
  {
    if s.slots[p].Runnable() then RtsSet(s, p, {NO_QUANTUM}) else s
  }

  lemma TermsGranted(v: Slot, w: Slot, priority: int, quantum: int, cycles: nat)
    requires -1 <= priority && (w == v || w == v.(flags := v.flags + {NO_QUANTUM}))
    ensures var n := NewTerms(w, priority, quantum, cycles);
      n.(flags := n.flags - {NO_QUANTUM}) == Granted(v, priority, quantum, cycles) && n.flags == w.flags
  {
    assert v.flags + {NO_QUANTUM} - {NO_QUANTUM} == v.flags - {NO_QUANTUM};
  }

  lemma SchedForm(s: Sched, p: nat, priority: int, quantum: int, cycles: nat)
    requires s.Shape() && p < |s.slots|
    requires InRange(priority, quantum) && priority != NR_SCHED_QUEUES
    ensures var v, t := Granted(s.slots[p], priority, quantum, cycles), Taken(s, p);
      SchedProc(s, p, priority, quantum, cycles).0 == if v.flags == {} then Enqueue(t.With(p, v), p) else t.With(p, v)
  {
    var v, t := Granted(s.slots[p], priority, quantum, cycles), Taken(s, p);
    TermsGranted(s.slots[p], t.slots[p], priority, quantum, cycles);
    var u := t.With(p, NewTerms(t.slots[p], priority, quantum, cycles));
    assert u.With(p, v) == t.With(p, v);
    assert !u.slots[p].Runnable();
  }

  lemma TakenExact(s: Sched, p: nat)
    requires s.Shape() && Filed(s) && p < |s.slots|
    ensures var t := Taken(s, p);
      && Filed(t) && t.slots[p].flags != {} && t.cur == s.cur
      && t.slots == s.slots[p := t.slots[p]] && |t.queues| == |s.queues|
      && forall b :: 0 <= b < |s.queues| ==> t.queues[b] == Without(s.queues[b], p) == Without(t.queues[b], p)
  {
    var t := Taken(s, p);
    NotQueued(s, p);
    if s.slots[p].Runnable() {
      RtsSetFiled(s, p, {NO_QUANTUM});
      SetExact(s, p, {NO_QUANTUM});
      assert NO_QUANTUM in t.slots[p].flags;
    }
    NotQueued(t, p);
  }

  lemma SlotsSince(s: Sched, t: Sched, r: Sched, p: nat, v: Slot, preempts: bool)
    requires s.Shape() && t.Shape() && p < |s.slots| && |t.slots| == |s.slots|
    requires t.cur == s.cur && t.slots == s.slots[p := t.slots[p]] && Slots(t, r, p, v, preempts)
    ensures Slots(s, r, p, v, preempts)
  {
  }

  lemma LinesSince(s: Sched, t: Sched, r: Sched, p: nat, a: nat, runs: bool, preempts: bool)
    requires s.Shape() && t.Shape() && t.cur == s.cur && (preempts ==> s.cur != IDLE)
    requires forall b :: 0 <= b < |s.queues| ==> Without(s.queues[b], p) == Without(t.queues[b], p)
    requires Lines(t, r, p, a, runs, preempts)
    ensures Lines(s, r, p, a, runs, preempts)
  {
  }

  lemma FormRescheduled(s: Sched, p: nat, v: Slot, r: Sched)
    requires s.Shape() && Filed(s) && p < |s.slots| && v.priority < NR_SCHED_QUEUES
    requires r == if v.flags == {} then Enqueue(Taken(s, p).With(p, v), p) else Taken(s, p).With(p, v)
    ensures Rescheduled(s, r, p, v)
  {
    var t := Taken(s, p);
    var preempts := v.flags == {} && Preempts(t, p, v.priority);
    TakenExact(s, p);
    if v.flags == {} { EnqueueExact(t, t.With(p, v), p); }
    assert preempts == (v.flags == {} && Preempts(s, p, v.priority));
    SlotsSince(s, t, r, p, v, preempts);
    LinesSince(s, t, r, p, v.priority, v.flags == {}, preempts);
  }

  /** sched_proc refuses exactly what is out of range, and then changes nothing. Otherwise the process gets the
      priority and the quantum with its time, each unless it is -1, and has a quantum again; its other flags stay;
      of the others only the current process can change, and only by being preempted. */
  lemma SchedExact(s: Sched, p: nat, priority: int, quantum: int, cycles: nat)
    requires s.Shape() && Filed(s) && p < |s.slots|
    ensures var r := SchedProc(s, p, priority, quantum, cycles);
      && (r.1 == EINVAL <==> !Accepted(priority, quantum)) && (r.1 == EINVAL ==> r.0 == s)
      && (Accepted(priority, quantum) && priority != 16 ==>
            r.1 == OK && Rescheduled(s, r.0, p, Granted(s.slots[p], priority, quantum, cycles)))
  {
    if Accepted(priority, quantum) && priority != 16 {
      SchedForm(s, p, priority, quantum, cycles);
      FormRescheduled(s, p, Granted(s.slots[p], priority, quantum, cycles), SchedProc(s, p, priority, quantum, cycles).0);
    }
  }

  // ---------------------------------------------------------------- selection

  /** A runnable current process goes on. Otherwise a process that was only preempted is queued again, in front if
      it has time left and last if not, and nothing else moves. */
  lemma SelectExact(s: Sched)
    requires Inv(s)
    ensures var t := Switch(s);
      if s.cur != IDLE && s.slots[s.cur].flags == {} then t == s
      else
        && |t.queues| == |s.queues|
        && forall b :: 0 <= b < |s.queues| ==>
             t.queues[b] ==
               if s.cur == IDLE || s.slots[s.cur].flags != {PREEMPTED} || b != s.slots[s.cur].priority then s.queues[b]
               else if s.slots[s.cur].timeLeft != 0 then [s.cur] + s.queues[b]
               else s.queues[b] + [s.cur]
  {
    if s.cur != IDLE && PREEMPTED in s.slots[s.cur].flags {
      var f := s.slots[s.cur].flags;
      assert f - {PREEMPTED} == {} <==> f == {PREEMPTED};
    }
  }
}
