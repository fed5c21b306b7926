/** The run queues as the kernel keeps them: run_q_head, run_q_tail and p_nextready, changed in
    place. Every method does to the table what the function of the same name in RunQueue does to
    its contents. */
module RunQueueTable {
  import opened Lists
  import opened RunQueue

  function Last(q: seq<nat>): int { if q == [] then NULL else q[|q| - 1] }

  /** `head`, `tail` and `next` hold the queue `q`. */
  ghost predicate Wired(head: int, tail: int, next: seq<int>, q: seq<nat>) {
    Linked(head, next, q) && tail == Last(q)
  }

  lemma WiredElsewhere(head: int, tail: int, next: seq<int>, q: seq<nat>, p: nat, v: int)
    requires Wired(head, tail, next, q) && p < |next| && p !in q
    ensures Wired(head, tail, next[p := v], q)
  {
    LinkedElsewhere(head, next, q, p, v);
  }

  lemma WiredAppend(head: int, tail: int, next: seq<int>, q: seq<nat>, p: nat)
    requires Wired(head, tail, next, q) && NoDuplicates(q) && p < |next| && p !in q
    ensures q == [] ==> Wired(p, p, next[p := NULL], q + [p])
    ensures q != [] ==> 0 <= tail < |next| && tail != p && tail in q && Wired(head, p, next[tail := p][p := NULL], q + [p])
  {
    LinkedElsewhere(head, next, q, p, NULL);
    LinkedAppend(head, next[p := NULL], q, p);
    if q != [] {
      assert q[|q| - 1] in q;
      assert next[p := NULL][tail := p] == next[tail := p][p := NULL];
    }
  }

  lemma WiredPrepend(head: int, tail: int, next: seq<int>, q: seq<nat>, p: nat)
    requires Wired(head, tail, next, q) && p < |next| && p !in q && q != []
    ensures Wired(p, tail, next[p := head], [p] + q)
  {
  }

  lemma WiredCut(head: int, tail: int, next: seq<int>, q: seq<nat>, i: nat)
    requires Wired(head, tail, next, q) && NoDuplicates(q) && i < |q|
    ensures var p := q[i]; var t := if tail == p then (if i == 0 then NULL else q[i - 1]) else tail;
      if i == 0 then Wired(next[p], t, next, Without(q, p))
      else q[i - 1] < |next| && Wired(head, t, next[q[i - 1] := next[p]], Without(q, p))
  {
    LinkedCut(head, next, q, i);
    WithoutIsCut(q, i);
  }

  /** The elements of the queues are told apart by their priority. */
  lemma FiledDisjoint(s: Sched)
    requires Filed(s)
    ensures Disjoint(s.queues)
  {
  }

  class ReadyTable {
    const slot: array<Slot>
    const head: array<int>
    const tail: array<int>
    const next: array<int>
    var cur: int
    ghost var queues: seq<seq<nat>>

    /** Nothing is runnable. */
    constructor (slots: seq<Slot>)
      requires Initial(Sched(slots, seq(NR_SCHED_QUEUES, _ => []), IDLE))
      ensures Valid() && Abs() == Sched(slots, seq(NR_SCHED_QUEUES, _ => []), IDLE)
      ensures fresh(slot) && fresh(head) && fresh(tail) && fresh(next)
    {
      slot := new Slot[|slots|](i requires 0 <= i < |slots| => slots[i]);
      head := new int[NR_SCHED_QUEUES](_ => NULL);
      tail := new int[NR_SCHED_QUEUES](_ => NULL);
      next := new int[|slots|](_ => NULL);
      cur := IDLE;
      queues := seq(NR_SCHED_QUEUES, _ => []);
      new;
      assert slot[..] == slots;
      forall a | 0 <= a < NR_SCHED_QUEUES ensures WiredAt(a) {}
    }

    ghost predicate WiredAt(a: nat)
      requires a < head.Length && a < tail.Length && a < |queues|
      reads this`queues, head, tail, next
    {
      Wired(head[a], tail[a], next[..], queues[a])
    }

    ghost predicate Valid()
      reads this`queues, slot, head, tail, next
    {
      && head.Length == tail.Length == |queues| == NR_SCHED_QUEUES && next.Length == slot.Length
      && head != tail && head != next && tail != next
      && forall a :: 0 <= a < |queues| ==> WiredAt(a)
    }

    ghost function Abs(): Sched
      reads this, slot
    {
      Sched(slot[..], queues, cur)
    }

    method PutSlot(p: nat, v: Slot)
      requires p < slot.Length && Valid()
      modifies slot
      ensures Valid() && Abs() == old(Abs()).With(p, v)
    {
      slot[p] := v;
    }

    /** dequeue's search for `p` on queue `a`. */
    method Find(a: nat, p: nat) returns (prev: int, found: bool, ghost i: nat)
      requires Valid() && a < NR_SCHED_QUEUES
      ensures found <==> p in queues[a]
      ensures found ==> i < |queues[a]| && queues[a][i] == p && prev == if i == 0 then NULL else queues[a][i - 1]
    {
      ghost var q := queues[a];
      assert WiredAt(a);
      i := 0;
      prev := NULL;
      var x := head[a];
      while x != NULL && x != p
        invariant 0 <= i <= |q| && x == (if i < |q| then q[i] else NULL)
        invariant prev == if i == 0 then NULL else q[i - 1]
        invariant forall j :: 0 <= j < i ==> q[j] != p
        decreases |q| - i
      {
        prev, x := x, next[x];
        i := i + 1;
      }
      found := x == p;
    }

    /** Links around `p`, element `i` of queue `a`. */
    method Unlink(a: nat, prev: int, p: nat, ghost i: nat)
      requires Valid() && a < NR_SCHED_QUEUES && Disjoint(queues) && NoDuplicates(queues[a]) && p < slot.Length
      requires i < |queues[a]| && queues[a][i] == p && prev == if i == 0 then NULL else queues[a][i - 1]
      modifies head, tail, next, this`queues
      ensures Valid() && queues == old(queues)[a := Without(old(queues)[a], p)]
    {
      ghost var q, link := queues[a], next[..];
      forall b | 0 <= b < |queues| ensures Wired(head[b], tail[b], link, queues[b]) { assert WiredAt(b); }
      WiredCut(head[a], tail[a], link, q, i);
      if prev == NULL {
        head[a] := next[p];
        assert next[..] == link;
      } else {
        forall b | 0 <= b < |queues| && b != a ensures Wired(head[b], tail[b], link[prev := link[p]], queues[b]) {
          WiredElsewhere(head[b], tail[b], link, queues[b], prev, link[p]);
        }
        next[prev] := next[p];
        assert next[..] == link[prev := link[p]];
      }
      if tail[a] == p { tail[a] := prev; }
      queues := queues[a := Without(q, p)];
      forall b | 0 <= b < |queues| ensures WiredAt(b) {}
    }

    method Dequeue(p: nat)
      requires Valid() && Abs().Shape() && p < slot.Length
      requires Disjoint(queues) && NoDuplicates(queues[slot[p].priority])
      modifies head, tail, next, this`queues
      ensures Valid() && Abs() == RunQueue.Dequeue(old(Abs()), p)
    {
      var a := slot[p].priority;
      var prev, found, i := Find(a, p);
      if found { Unlink(a, prev, p, i); } else { WithoutAbsent(queues[a], p); }
    }

    /** RTS_SET */
    method RtsSet(p: nat, f: set<Flag>)
      requires Valid() && Abs().Shape() && Filed(Abs()) && p < slot.Length
      modifies slot, head, tail, next, this`queues
      ensures Valid() && Abs() == RunQueue.RtsSet(old(Abs()), p, f)
    {
      FiledDisjoint(Abs());
      var was := slot[p].Runnable();
      PutSlot(p, slot[p].(flags := slot[p].flags + f));
      if was && !slot[p].Runnable() { Dequeue(p); }
    }

    /** The first half of enqueue: `p` goes to the end of its queue. */
    method LinkLast(p: nat)
      requires Valid() && Abs().Shape() && Missing(Abs(), p)
      modifies head, tail, next, this`queues
      ensures Valid() && Abs() == Append(old(Abs()), p)
    {
      var a := slot[p].priority;
      ghost var q, link := queues[a], next[..];
      forall b | 0 <= b < |queues| ensures Wired(head[b], tail[b], link, queues[b]) && p !in queues[b] { assert WiredAt(b); }
      WiredAppend(head[a], tail[a], link, q, p);
      if head[a] == NULL {
        forall b | 0 <= b < |queues| && b != a ensures Wired(head[b], tail[b], link[p := NULL], queues[b]) {
          WiredElsewhere(head[b], tail[b], link, queues[b], p, NULL);
        }
        head[a] := p;
        tail[a] := p;
        next[p] := NULL;
        assert next[..] == link[p := NULL];
      } else {
        ghost var last := tail[a];
        forall b | 0 <= b < |queues| && b != a ensures Wired(head[b], tail[b], link[last := p][p := NULL], queues[b]) {
          WiredElsewhere(head[b], tail[b], link, queues[b], last, p);
          WiredElsewhere(head[b], tail[b], link[last := p], queues[b], p, NULL);
        }
        next[tail[a]] := p;
        tail[a] := p;
        next[p] := NULL;
        assert next[..] == link[last := p][p := NULL];
      }
      queues := queues[a := q + [p]];
      forall b | 0 <= b < |queues| ensures WiredAt(b) {}
    }

    /** enqueue, with the dequeue of the current process inside it. */
    method Enqueue(p: nat)
      requires Valid() && Abs().Shape() && Missing(Abs(), p)
      modifies slot, head, tail, next, this`queues
      ensures Valid() && Abs() == RunQueue.Enqueue(old(Abs()), p)
    {
      AppendFiled(Abs(), p);
      LinkLast(p);
      if cur != IDLE && slot[cur].priority > slot[p].priority && slot[cur].preemptible {
        RtsSet(cur, {PREEMPTED});
      }
    }

    /** enqueue_head. Its last assignment is not part of the else branch, and does no harm in the
        other one. */
    method EnqueueHead(p: nat)
      requires Valid() && Abs().Shape() && Missing(Abs(), p)
      modifies head, tail, next, this`queues
      ensures Valid() && Abs() == RunQueue.EnqueueHead(old(Abs()), p)
    {
      var a := slot[p].priority;
      ghost var q, link, first := queues[a], next[..], head[a];
      forall b | 0 <= b < |queues| ensures Wired(head[b], tail[b], link, queues[b]) && p !in queues[b] { assert WiredAt(b); }
      ghost var v := if q == [] then NULL else first;
      forall b | 0 <= b < |queues| && b != a ensures Wired(head[b], tail[b], link[p := v], queues[b]) {
        WiredElsewhere(head[b], tail[b], link, queues[b], p, v);
      }
      if q == [] { WiredAppend(first, tail[a], link, q, p); } else { WiredPrepend(first, tail[a], link, q, p); }
      if head[a] == NULL {
        head[a] := p;
        tail[a] := p;
        next[p] := NULL;
      } else {
        next[p] := head[a];
      }
      head[a] := p;
      assert next[..] == link[p := v];
      assert q == [] ==> [p] + q == q + [p];
      queues := queues[a := [p] + q];
      forall b | 0 <= b < |queues| ensures WiredAt(b) {}
    }

    /** RTS_UNSET */
    method RtsUnset(p: nat, f: set<Flag>)
      requires Valid() && Abs().Shape() && Filed(Abs()) && p < slot.Length
      modifies slot, head, tail, next, this`queues
      ensures Valid() && Abs() == RunQueue.RtsUnset(old(Abs()), p, f)
    {
      var was := slot[p].Runnable();
      PutSlot(p, slot[p].(flags := slot[p].flags - f));
      if !was && slot[p].Runnable() { Enqueue(p); }
    }

    /** A runnable process is taken off its queue before its terms change. */
    method Suspend(p: nat)
      requires Valid() && Abs().Shape() && Filed(Abs()) && p < slot.Length
      modifies slot, head, tail, next, this`queues
      ensures Valid() && Abs() == if old(slot[p]).Runnable() then RunQueue.RtsSet(old(Abs()), p, {NO_QUANTUM}) else old(Abs())
      ensures Abs().Shape() && Filed(Abs()) && !slot[p].Runnable()
    {
      RtsSetFiled(Abs(), p, {NO_QUANTUM});
      if slot[p].Runnable() { RtsSet(p, {NO_QUANTUM}); }
    }

    /** It gets its new terms, and goes back to a queue if nothing else stops it. */
    method Resume(p: nat, v: Slot)
      requires Valid() && Abs().Shape() && Filed(Abs()) && p < slot.Length && v.priority < NR_SCHED_QUEUES
      requires !slot[p].Runnable() && v.flags == slot[p].flags
      modifies slot, head, tail, next, this`queues
      ensures Valid() && Abs() == RunQueue.RtsUnset(old(Abs()).With(p, v), p, {NO_QUANTUM})
    {
      PutSlot(p, v);
      RtsUnset(p, {NO_QUANTUM});
    }

    /** sched_proc. With the priority NR_SCHED_QUEUES it would go on to use a queue that is not there. */
    method SchedProc(p: nat, priority: int, quantum: int, cycles: nat) returns (r: Code)
      requires Valid() && Abs().Shape() && Filed(Abs()) && p < slot.Length
      modifies slot, head, tail, next, this`queues
      ensures Valid() && (Abs(), r) == RunQueue.SchedProc(old(Abs()), p, priority, quantum, cycles)
    {
      if (priority < TASK_Q && priority != -1) || priority > NR_SCHED_QUEUES { return EINVAL; }
      if quantum < 1 && quantum != -1 { return EINVAL; }
      Suspend(p);
      var v := slot[p];
      if priority != -1 { v := v.(priority := priority); }
      if quantum != -1 { v := v.(quantum := quantum, timeLeft := cycles); }
      if priority == NR_SCHED_QUEUES {
        PutSlot(p, v);
        PutSlot(p, v.(flags := v.flags - {NO_QUANTUM}));
        return if slot[p].Runnable() then Astray else OK;
      }
      Resume(p, v);
      return OK;
    }

    /** pick_proc */
    method PickProc() returns (x: int)
      requires Valid() && Abs().Shape() && Filed(Abs())
      ensures x == Pick(Abs())
      ensures x != NULL ==> 0 <= x < slot.Length && slot[x].Runnable()
    {
      PickBest(Abs());
      var a := 0;
      while a < NR_SCHED_QUEUES
        invariant 0 <= a <= NR_SCHED_QUEUES && PickFrom(queues, a) == Pick(Abs())
      {
        assert WiredAt(a);
        if head[a] != NULL { return head[a]; }
        a := a + 1;
      }
      return NULL;
    }

    /** The return of a preempted current process to its queue. */
    method Restore()
      requires Valid() && Abs().Shape() && Filed(Abs())
      modifies slot, head, tail, next, this`queues
      ensures Valid() && Abs() == RunQueue.Restore(old(Abs()))
    {
      if cur != IDLE && PREEMPTED in slot[cur].flags {
        PutSlot(cur, slot[cur].(flags := slot[cur].flags - {PREEMPTED}));
        if slot[cur].Runnable() {
          if slot[cur].timeLeft != 0 { EnqueueHead(cur); } else { Enqueue(cur); }
        }
      }
    }

    /** The selection of switch_to_user; without anything to run the CPU idles. */
    method SwitchToUser()
      requires Valid() && Abs().Shape() && Filed(Abs())
      modifies slot, head, tail, next, this`queues, this`cur
      ensures Valid() && Abs() == Switch(old(Abs()))
    {
      if cur != IDLE && slot[cur].Runnable() { return; }
      RestoreFiled(Abs());
      Restore();
      cur := PickProc();
    }

    /** Any step keeps the links, and the membership of the queues and the preemption rule unless it is a
        sched_proc with a priority that is no queue. */
    method Perform(step: Step)
      requires Valid() && Inv(Abs()) && Possible(Abs(), step)
      modifies slot, head, tail, next, this`queues, this`cur
      ensures Valid() && Abs() == Apply(old(Abs()), step) && (Inv(Abs()) <==> !OffTheQueues(step))
    {
      KeptExactly(Abs(), step);
      match step
      case Set(p, f) => RtsSet(p, f);
      case Unset(p, f) => RtsUnset(p, f);
      case Reschedule(p, priority, quantum, cycles) => var _ := SchedProc(p, priority, quantum, cycles);
      case Charge(p, left) => PutSlot(p, slot[p].(timeLeft := left));
      case Select => SwitchToUser();
    }
  }
}
