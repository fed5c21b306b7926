/** The multi-level run queues of one CPU on values: what RTS_SET, RTS_UNSET, sched_proc and the
    selection of switch_to_user do to the flags, the queues and the current process. */
module RunQueue {
  import opened Lists

  const NR_SCHED_QUEUES: nat := 16
  const TASK_Q: int := 0
  /** The current process while the CPU is idle: not in the table, never runnable and never
      preempted. */
  const IDLE: int := NULL

  /** Runtime flags. A process with none of them is runnable. */
  datatype Flag =
    | SLOT_FREE | PROC_STOP | SENDING | RECEIVING | SIGNALED | SIG_PENDING | P_STOP | NO_PRIV
    | NO_ENDPOINT | VMINHIBIT | PAGEFAULT | VMREQUEST | VMREQTARGET | PREEMPTED | NO_QUANTUM
    | BOOTINHIBIT

  datatype Slot = Slot(
    flags: set<Flag>, priority: nat, preemptible: bool, timeLeft: nat, quantum: int, magic: bool)
  {
    predicate Runnable() { flags == {} }
  }

  datatype Code =
    | OK | EINVAL
    | Astray     // not an error number: the kernel goes on to use a queue that does not exist

  datatype Sched = Sched(slots: seq<Slot>, queues: seq<seq<nat>>, cur: int) {
    ghost predicate Shape() {
      && |queues| == NR_SCHED_QUEUES
      && (cur == IDLE || 0 <= cur < |slots|)
      && forall x :: 0 <= x < |slots| ==> slots[x].priority < NR_SCHED_QUEUES
    }

    function With(p: nat, v: Slot): Sched
      requires p < |slots|
    {
      this.(slots := slots[p := v])
    }

    /** Queue `a` becomes `q`. */
    function Line(a: nat, q: seq<nat>): Sched
      requires a < |queues|
    {
      this.(queues := queues[a := q])
    }

    predicate Queued(x: nat, a: nat) { x < |slots| && slots[x].Runnable() && slots[x].priority == a }
  }

  // ---------------------------------------------------------------- operations

  function Dequeue(s: Sched, p: nat): (t: Sched)
    requires s.Shape() && p < |s.slots|
    ensures t.Shape()
  {
    var a := s.slots[p].priority;
    s.Line(a, Without(s.queues[a], p))
  }

  /** RTS_SET */
  function RtsSet(s: Sched, p: nat, f: set<Flag>): (t: Sched)
    requires s.Shape() && p < |s.slots|
    ensures t.Shape()
  {
    var t := s.With(p, s.slots[p].(flags := s.slots[p].flags + f));
    if s.slots[p].Runnable() && !t.slots[p].Runnable() then Dequeue(t, p) else t
  }

  /** The first half of enqueue. */
  function Append(s: Sched, p: nat): (t: Sched)
    requires s.Shape() && p < |s.slots|
    ensures t.Shape()
  {
    var a := s.slots[p].priority;
    s.Line(a, s.queues[a] + [p])
  }

  /** Whether enqueueing `p` preempts the current process. */
  predicate Outranks(s: Sched, p: nat)
    requires s.Shape() && p < |s.slots|
  {
    s.cur != IDLE && s.slots[s.cur].priority > s.slots[p].priority && s.slots[s.cur].preemptible
  }

  function Enqueue(s: Sched, p: nat): (t: Sched)
    requires s.Shape() && p < |s.slots|
    ensures t.Shape()
  {
    if Outranks(s, p) then RtsSet(Append(s, p), s.cur, {PREEMPTED}) else Append(s, p)
  }

  function EnqueueHead(s: Sched, p: nat): (t: Sched)
    requires s.Shape() && p < |s.slots|
    ensures t.Shape()
  {
    var a := s.slots[p].priority;
    s.Line(a, [p] + s.queues[a])
  }

  /** RTS_UNSET */
  function RtsUnset(s: Sched, p: nat, f: set<Flag>): (t: Sched)
    requires s.Shape() && p < |s.slots|
    ensures t.Shape()
  {
    var t := s.With(p, s.slots[p].(flags := s.slots[p].flags - f));
    if !s.slots[p].Runnable() && t.slots[p].Runnable() then Enqueue(t, p) else t
  }

  /** The range test of sched_proc. It lets the priority NR_SCHED_QUEUES pass, which is no queue. */
  predicate InRange(priority: int, quantum: int) {
    (TASK_Q <= priority <= NR_SCHED_QUEUES || priority == -1) && (quantum >= 1 || quantum == -1)
  }

  function NewTerms(v: Slot, priority: int, quantum: int, cycles: nat): Slot
    requires -1 <= priority
  {
    var w := if priority == -1 then v else v.(priority := priority);
    if quantum == -1 then w else w.(quantum := quantum, timeLeft := cycles)
  }

  /** The one priority that passes the range test and is no queue. */
  predicate Misses(priority: int, quantum: int) { InRange(priority, quantum) && priority == NR_SCHED_QUEUES }

  /** sched_proc; `cycles` is what the clock makes of the quantum. */
  function SchedProc(s: Sched, p: nat, priority: int, quantum: int, cycles: nat): (r: (Sched, Code))
    requires s.Shape() && p < |s.slots|
    ensures !Misses(priority, quantum) ==> r.0.Shape()
  {
    if !InRange(priority, quantum) then (s, EINVAL)
    else
      var t := if s.slots[p].Runnable() then RtsSet(s, p, {NO_QUANTUM}) else s;
      var u := t.With(p, NewTerms(t.slots[p], priority, quantum, cycles));
      if Misses(priority, quantum) then
        var v := u.With(p, u.slots[p].(flags := u.slots[p].flags - {NO_QUANTUM}));
        (v, if v.slots[p].Runnable() then Astray else OK)
      else (RtsUnset(u, p, {NO_QUANTUM}), OK)
  }

  /** The head of the first queue that is not empty, from queue `a` on, or NULL. */
  function PickFrom(queues: seq<seq<nat>>, a: nat): int
    decreases |queues| - a
  {
    if a >= |queues| then NULL else if queues[a] != [] then queues[a][0] else PickFrom(queues, a + 1)
  }

  /** pick_proc */
  function Pick(s: Sched): int { PickFrom(s.queues, 0) }

  /** The current process, if it was preempted, becomes an ordinary one again. */
  function Restore(s: Sched): (t: Sched)
    requires s.Shape()
    ensures t.Shape()
  {
    if s.cur == IDLE || PREEMPTED !in s.slots[s.cur].flags then s
    else
      var v := s.slots[s.cur];
      var t := s.With(s.cur, v.(flags := v.flags - {PREEMPTED}));
      if !t.slots[s.cur].Runnable() then t
      else if v.timeLeft != 0 then EnqueueHead(t, s.cur)
      else Enqueue(t, s.cur)
  }

  /** The selection of switch_to_user. A CPU that finds nothing to run idles until the next
      interrupt and selects again. */
  function Switch(s: Sched): (t: Sched)
    requires s.Shape()
  {
    if s.cur != IDLE && s.slots[s.cur].Runnable() then s
    else
      var t := Restore(s);
      t.(cur := Pick(t))
  }

  // ---------------------------------------------------------------- runs

  datatype Step =
    | Set(p: nat, f: set<Flag>)
    | Unset(p: nat, f: set<Flag>)
    | Reschedule(p: nat, priority: int, quantum: int, cycles: nat)
    | Charge(p: nat, left: nat)
    | Select

  /** Only enqueue sets PREEMPTED and only switch_to_user clears it. */
  predicate Possible(s: Sched, step: Step) {
    match step
    case Set(p, f) => p < |s.slots| && PREEMPTED !in f
    case Unset(p, f) => p < |s.slots| && PREEMPTED !in f
    case Reschedule(p, _, _, _) => p < |s.slots|
    case Charge(p, _) => p < |s.slots|
    case Select => true
  }

  /** A sched_proc with the priority that is no queue. */
  predicate OffTheQueues(step: Step) { step.Reschedule? && Misses(step.priority, step.quantum) }

  predicate Enabled(s: Sched, step: Step) { Possible(s, step) && !OffTheQueues(step) }

  function Apply(s: Sched, step: Step): Sched
    requires s.Shape() && Possible(s, step)
  {
    match step
    case Set(p, f) => RtsSet(s, p, f)
    case Unset(p, f) => RtsUnset(s, p, f)
    case Reschedule(p, priority, quantum, cycles) => SchedProc(s, p, priority, quantum, cycles).0
    case Charge(p, left) => s.With(p, s.slots[p].(timeLeft := left))
    case Select => Switch(s)
  }

  /** Every runnable process is on the queue of its priority, once, and nothing else is queued. */
  ghost predicate Filed(s: Sched) {
    && (forall a :: 0 <= a < |s.queues| ==> NoDuplicates(s.queues[a]))
    && (forall a, x :: 0 <= a < |s.queues| ==> (x in s.queues[a] <==> s.Queued(x, a)))
  }

  /** Nobody but the current process is preempted. */
  ghost predicate OnlyCurrent(s: Sched) {
    forall x :: 0 <= x < |s.slots| && PREEMPTED in s.slots[x].flags ==> x == s.cur
  }

  ghost predicate Inv(s: Sched) { s.Shape() && Filed(s) && OnlyCurrent(s) }

  // ---------------------------------------------------------------- every step keeps the invariant

  lemma RtsSetFiled(s: Sched, p: nat, f: set<Flag>)
    requires s.Shape() && Filed(s) && p < |s.slots|
    ensures Filed(RtsSet(s, p, f))
  {
    WithoutMembers(s.queues[s.slots[p].priority], p);
  }

  /** `s` in which `p` runs but is still to be queued. */
  ghost predicate Missing(s: Sched, p: nat)
    requires s.Shape()
  {
    && p < |s.slots| && s.slots[p].Runnable()
    && (forall a :: 0 <= a < |s.queues| ==> NoDuplicates(s.queues[a]))
    && (forall a, x :: 0 <= a < |s.queues| ==> (x in s.queues[a] <==> s.Queued(x, a) && x != p))
  }

  lemma AppendFiled(s: Sched, p: nat)
    requires s.Shape() && Missing(s, p)
    ensures Filed(Append(s, p)) && Filed(EnqueueHead(s, p))
  {
    AddedMembers(s.queues[s.slots[p].priority], p);
  }

  lemma EnqueueFiled(s: Sched, p: nat)
    requires s.Shape() && Missing(s, p)
    ensures Filed(Enqueue(s, p))
  {
    AppendFiled(s, p);
    if Outranks(s, p) { RtsSetFiled(Append(s, p), s.cur, {PREEMPTED}); }
  }

  lemma RtsUnsetFiled(s: Sched, p: nat, f: set<Flag>)
    requires s.Shape() && Filed(s) && p < |s.slots|
    ensures Filed(RtsUnset(s, p, f))
  {
    var t := s.With(p, s.slots[p].(flags := s.slots[p].flags - f));
    if !s.slots[p].Runnable() && t.slots[p].Runnable() { EnqueueFiled(t, p); }
  }

  lemma SchedProcFiled(s: Sched, p: nat, priority: int, quantum: int, cycles: nat)
    requires s.Shape() && Filed(s) && p < |s.slots| && !Misses(priority, quantum)
    ensures Filed(SchedProc(s, p, priority, quantum, cycles).0)
  {
    if InRange(priority, quantum) {
      RtsSetFiled(s, p, {NO_QUANTUM});
      var t := if s.slots[p].Runnable() then RtsSet(s, p, {NO_QUANTUM}) else s;
      RtsUnsetFiled(t.With(p, NewTerms(t.slots[p], priority, quantum, cycles)), p, {NO_QUANTUM});
    }
  }

  lemma RestoreFiled(s: Sched)
    requires s.Shape() && Filed(s)
    ensures Filed(Restore(s))
  {
    if s.cur != IDLE && PREEMPTED in s.slots[s.cur].flags {
      var t := s.With(s.cur, s.slots[s.cur].(flags := s.slots[s.cur].flags - {PREEMPTED}));
      if t.slots[s.cur].Runnable() {
        AppendFiled(t, s.cur);
        EnqueueFiled(t, s.cur);
      }
    }
  }

  /** Queue `b` is the first one from `a` on that is not empty. */
  ghost predicate FirstFilled(queues: seq<seq<nat>>, a: nat, b: nat) {
    a <= b < |queues| && queues[b] != [] && forall c :: a <= c < b ==> queues[c] == []
  }

  lemma {:induction false} PickFromMember(queues: seq<seq<nat>>, a: nat) returns (b: nat)
    ensures PickFrom(queues, a) == NULL ==> forall c :: a <= c < |queues| ==> queues[c] == []
    ensures PickFrom(queues, a) != NULL ==> FirstFilled(queues, a, b) && queues[b][0] == PickFrom(queues, a)
    decreases |queues| - a
  {
    b := a;
    if a < |queues| && queues[a] == [] { b := PickFromMember(queues, a + 1); }
  }

  /** pick_proc finds nothing exactly if nothing is runnable; otherwise it finds the head of a
      queue, a runnable process than which none is more urgent. */
  lemma PickBest(s: Sched)
    requires s.Shape() && Filed(s)
    ensures Pick(s) == NULL <==> forall x :: 0 <= x < |s.slots| ==> !s.slots[x].Runnable()
    ensures Pick(s) != NULL ==>
      && 0 <= Pick(s) < |s.slots| && s.slots[Pick(s)].Runnable()
      && First(s.queues[s.slots[Pick(s)].priority]) == Pick(s)
      && forall x :: 0 <= x < |s.slots| && s.slots[x].Runnable() ==> s.slots[Pick(s)].priority <= s.slots[x].priority
  {
    var b := PickFromMember(s.queues, 0);
    forall x | 0 <= x < |s.slots| && s.slots[x].Runnable() ensures x in s.queues[s.slots[x].priority] {}
    if Pick(s) != NULL { assert s.queues[b][0] in s.queues[b] && s.Queued(s.queues[b][0], b); }
  }

  lemma SwitchKeeps(s: Sched)
    requires Inv(s)
    ensures Inv(Switch(s))
  {
    RestoreFiled(s);
    PickBest(Restore(s));
  }

  lemma SetCurrent(s: Sched, p: nat, f: set<Flag>)
    requires s.Shape() && OnlyCurrent(s) && p < |s.slots| && (PREEMPTED !in f || p == s.cur)
    ensures OnlyCurrent(RtsSet(s, p, f))
  {
  }

  lemma UnsetCurrent(s: Sched, p: nat, f: set<Flag>)
    requires s.Shape() && OnlyCurrent(s) && p < |s.slots|
    ensures OnlyCurrent(RtsUnset(s, p, f))
  {
    var t := s.With(p, s.slots[p].(flags := s.slots[p].flags - f));
    if Outranks(t, p) { SetCurrent(Append(t, p), s.cur, {PREEMPTED}); }
  }

  lemma SchedCurrent(s: Sched, p: nat, priority: int, quantum: int, cycles: nat)
    requires s.Shape() && OnlyCurrent(s) && p < |s.slots| && !Misses(priority, quantum)
    ensures OnlyCurrent(SchedProc(s, p, priority, quantum, cycles).0)
  {
    if InRange(priority, quantum) {
      SetCurrent(s, p, {NO_QUANTUM});
      var t := if s.slots[p].Runnable() then RtsSet(s, p, {NO_QUANTUM}) else s;
      UnsetCurrent(t.With(p, NewTerms(t.slots[p], priority, quantum, cycles)), p, {NO_QUANTUM});
    }
  }

  lemma StepKeeps(s: Sched, step: Step)
    requires Inv(s) && Enabled(s, step)
    ensures Inv(Apply(s, step))
  {
    match step
    case Set(p, f) =>
      RtsSetFiled(s, p, f);
      SetCurrent(s, p, f);
    case Unset(p, f) =>
      RtsUnsetFiled(s, p, f);
      UnsetCurrent(s, p, f);
    case Reschedule(p, priority, quantum, cycles) =>
      SchedProcFiled(s, p, priority, quantum, cycles);
      SchedCurrent(s, p, priority, quantum, cycles);
    case Charge(p, left) =>
    case Select => SwitchKeeps(s);
  }

  /** sched_proc accepts the priority NR_SCHED_QUEUES, and then, and only then, leaves a process with a
      priority that is no queue; it goes on to use that queue exactly if nothing else stops the process. */
  lemma SchedProcMisses(s: Sched, p: nat, priority: int, quantum: int, cycles: nat)
    requires s.Shape() && p < |s.slots|
    ensures var (t, r) := SchedProc(s, p, priority, quantum, cycles);
      && (t.Shape() <==> !Misses(priority, quantum))
      && (r != EINVAL ==> p < |t.slots| && (t.slots[p].priority < NR_SCHED_QUEUES <==> priority != NR_SCHED_QUEUES))
      && (r == Astray <==> Misses(priority, quantum) && s.slots[p].flags <= {NO_QUANTUM})
  {
    var v := s.slots[p];
    assert v.flags <= {NO_QUANTUM} <==> v.flags - {NO_QUANTUM} == {};
    assert v.Runnable() ==> ({} + {NO_QUANTUM}) - {NO_QUANTUM} == v.flags - {NO_QUANTUM};
  }

  /** Whatever is asked, the invariant holds afterwards exactly if it is not a sched_proc with that priority. */
  lemma KeptExactly(s: Sched, step: Step)
    requires Inv(s) && Possible(s, step)
    ensures Inv(Apply(s, step)) <==> !OffTheQueues(step)
  {
    if OffTheQueues(step) {
      SchedProcMisses(s, step.p, step.priority, step.quantum, step.cycles);
    } else {
      StepKeeps(s, step);
    }
  }

  /** Nothing is runnable yet and the CPU idles. */
  ghost predicate Initial(s: Sched) {
    && s.Shape() && s.cur == IDLE
    && (forall a :: 0 <= a < |s.queues| ==> s.queues[a] == [])
    && (forall x :: 0 <= x < |s.slots| ==> !s.slots[x].Runnable() && PREEMPTED !in s.slots[x].flags)
  }

  ghost predicate Leads(s: Sched, step: Step, t: Sched) {
    s.Shape() && Enabled(s, step) && t == Apply(s, step)
  }

  ghost predicate Run(states: seq<Sched>, steps: seq<Step>) {
    && |states| == |steps| + 1 && Initial(states[0])
    && forall k :: 0 <= k < |steps| ==> Leads(states[k], steps[k], states[k + 1])
  }

  /** In every state of every run the queues hold exactly the runnable processes, each once and
      by its priority, and no process but the current one is preempted. */
  lemma {:induction false} RunsKeep(states: seq<Sched>, steps: seq<Step>, k: nat)
    requires Run(states, steps) && k < |states|
    ensures Inv(states[k])
  {
    if k > 0 {
      var j := k - 1;
      RunsKeep(states, steps, j);
      assert Leads(states[j], steps[j], states[j + 1]);
      StepKeeps(states[j], steps[j]);
    }
  }

  /** A run with such an input: a process becomes runnable at priority 7 and is given the priority 16. */
  lemma SchedProcGoesAstray() returns (s: Sched)
    ensures |s.slots| == 1 && exists start: Sched :: Run([start, s], [Unset(0, {PROC_STOP})])
    ensures s.Shape() && InRange(NR_SCHED_QUEUES, -1) && SchedProc(s, 0, NR_SCHED_QUEUES, -1, 0).1 == Astray
    ensures !SchedProc(s, 0, NR_SCHED_QUEUES, -1, 0).0.Shape()
  {
    var start := Sched([Slot({PROC_STOP}, 7, true, 1, 1, true)], seq(NR_SCHED_QUEUES, _ => []), IDLE);
    s := RtsUnset(start, 0, {PROC_STOP});
    assert s.slots[0].flags == {};
    var states, steps := [start, s], [Unset(0, {PROC_STOP})];
    assert Leads(states[0], steps[0], states[1]);
    assert Run([start, s], [Unset(0, {PROC_STOP})]);
    SchedProcMisses(s, 0, NR_SCHED_QUEUES, -1, 0);
  }
}
