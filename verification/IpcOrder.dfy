/** Which message is taken, in what order caller queues are served, and when a message is given up. */
module IpcOrder {
  import opened IpcTypes
  import opened WaitGraph
  import opened Lists
  import opened IpcSpec
  import opened IpcInv
  import opened IpcCalls
  import opened IpcExit
  import opened IpcHistory
  import opened IpcRun

  // ---------------------------------------------------------------- what a receive takes

  lemma {:induction false} OnlyFrom(q: seq<nat>, e: nat)
    ensures FirstSender(q, Ep(e)) == if e in q then Some(e) else None
  {
    if q != [] { OnlyFrom(q[1..], e); }
  }

  /** `c` has the message of the queued sender `p` in its buffer, `p` is free, and the rest of the
      queue is as it was. */
  predicate Takes(s: State, t: State, c: nat, p: nat)
    requires s.Sized() && t.Sized() && c < s.Size() == t.Size() && p < s.Size()
  {
    && t.queues == s.queues[c := Without(s.queues[c], p)]
    && t.log != [] && t.log[|t.log| - 1] == Placed(p, c, s.procs[p].sendMsg)
    && !t.procs[p].sending && t.procs[c].deliverMsg && t.procs[c].delivered == Message(p, s.procs[p].sendMsg)
  }

  lemma TakeQueuedTakes(s: State, u: State, c: nat, p: nat)
    requires s.Sized() && Aside(s, u) && c < s.Size() && p < s.Size() && p != c && s.procs[p].sending
    ensures Takes(s, TakeQueued(u, c, p), c, p)
  {
    assert Calmer(s.procs[p], u.procs[p]);
  }

  /** A receive leaves all caller queues alone, or takes one sender off the queue of the caller. */
  lemma ReceiveTakes(s: State, c: nat, from: Target)
    requires s.Shape() && Queues(s) && c < s.Size() && c !in s.queues[c] && (from.Ep? ==> 0 <= from.e < s.Size())
    ensures var t := MiniReceive(s, c, from).0;
      var p := FirstSender(s.queues[c], from);
      t.queues == s.queues || (p.Some? && Takes(s, t, c, p.value))
  {
    var id := HasPending(s.privs[c].notifyPending, from, s.Size());
    if (from.Ep? && s.procs[from.e].noEndpoint) || s.procs[c].sending {
    } else if !s.procs[c].replyPend && id.Some? {
    } else {
      var (u, r) := TryPending(s, c, from);
      if r != OK { AfterPending(s, u, c, from); }
    }
  }

  lemma AfterPending(s: State, u: State, c: nat, from: Target)
    requires s.Shape() && Queues(s) && Aside(s, u)
    requires c < s.Size() && c !in s.queues[c] && (from.Ep? ==> 0 <= from.e < s.Size())
    ensures var t := ReceiveQueued(u, c, from).0;
      var p := FirstSender(s.queues[c], from);
      if p.None? then t.queues == s.queues else Takes(s, t, c, p.value)
  {
    var p := FirstSender(s.queues[c], from);
    if p.Some? { TakeQueuedTakes(s, u, c, p.value); }
  }

  /** Receiving from ANY takes the message that was accepted first of all that wait; receiving from one
      process takes the message of that process; the others keep their places. */
  lemma OldestFirst(s: State, c: nat, from: Target)
    requires s.Shape() && Queues(s) && Books(s) && c < s.Size() && c !in s.queues[c]
    requires from.Ep? ==> 0 <= from.e < s.Size()
    ensures var t := MiniReceive(s, c, from).0;
      t.queues != s.queues ==> exists p ::
        && 0 <= p < s.Size() && p in s.queues[c] && Takes(s, t, c, p)
        && (from == ANY ==> p == s.queues[c][0] && forall x :: x in s.queues[c] ==> LastPost(s.log, p) <= LastPost(s.log, x))
        && (from.Ep? ==> p == from.e)
  {
    ReceiveTakes(s, c, from);
    var q := s.queues[c];
    assert InOrder(s.log, q);
    if from.Ep? { OnlyFrom(q, from.e); }
  }

  // ---------------------------------------------------------------- the queues, step by step

  /** Who waits behind `x` still does while `x` waits. */
  ghost predicate Behind(s: State, t: State, d: nat, x: nat, y: nat)
    requires d < |s.queues| && d < |t.queues|
  {
    Before(s.queues[d], x, y) && x in t.queues[d] ==> Before(t.queues[d], x, y)
  }

  lemma {:induction false} HeadFirst(q: seq<nat>, x: nat, y: nat)
    requires Before(q, x, y) && NoDuplicates(q)
    ensures q[0] != y && x != y
  {
    assert q[0] !in q[1..];
    if !(q[0] == x && y in q[1..]) {
      BeforeMembers(q[1..], x, y);
      HeadFirst(q[1..], x, y);
    }
  }

  lemma TakingBehind(s: State, c: nat, p: nat, d: nat, x: nat, y: nat)
    requires s.Shape() && Queues(s) && c < s.Size() && d < s.Size() && (d == c ==> p != y)
    ensures var q := s.queues[c := Without(s.queues[c], p)][d];
      Before(s.queues[d], x, y) && x in q ==> Before(q, x, y)
  {
    if d == c {
      WithoutMembers(s.queues[d], p);
      if x != p { BeforeWithout(s.queues[d], p, x, y); }
    }
  }

  lemma ReceiveBehind(s: State, c: nat, from: Target, d: nat, x: nat, y: nat)
    requires s.Shape() && Queues(s) && c < s.Size() && c !in s.queues[c] && (from.Ep? ==> 0 <= from.e < s.Size())
    requires d < s.Size() && !(d == c && from == Ep(y))
    ensures Behind(s, MiniReceive(s, c, from).0, d, x, y)
  {
    ReceiveTakes(s, c, from);
    var p := FirstSender(s.queues[c], from);
    if p.Some? && Before(s.queues[d], x, y) {
      HeadFirst(s.queues[d], x, y);
      TakingBehind(s, c, p.value, d, x, y);
    }
  }

  lemma SendBehind(s: State, c: nat, to: nat, msg: Option<Body>, nonBlocking: bool, d: nat, x: nat, y: nat)
    requires s.Shape() && c < s.Size() && to < s.Size() && d < s.Size()
    ensures Behind(s, MiniSend(s, c, to, msg, nonBlocking).0, d, x, y)
  {
    BeforeAppend(s.queues[d], c, x, y);
  }

  /** The send half of a SENDREC to a process that waits on the caller's queue fails. */
  lemma NoSendBack(s: State, c: nat, y: nat, msg: Option<Body>)
    requires Core(s) && c < s.Size() && y < s.Size() && c != y && y in s.queues[c]
    ensures MiniSend(s, c, y, msg, false).1 != OK
  {
    LeadsBack(s, c, y);
    SendDeadlockExact(s, c, y);
  }

  lemma LeadsBack(s: State, c: nat, y: nat)
    requires s.Shape() && Queues(s) && c < s.Size() && y < s.Size() && y in s.queues[c]
    ensures s.procs[y].sending && Reaches(Waits(s), y, c)
  {
    assert PathBetween(Waits(s), [y, c], y, c);
  }

  lemma SendReceiveBehind(s: State, c: nat, to: nat, msg: Option<Body>, d: nat, x: nat, y: nat)
    requires Core(s) && c < s.Size() && to < s.Size() && c != to && Idle(s.procs[c]) && d < s.Size()
    ensures Behind(s, SendReceive(s, c, to, msg).0, d, x, y)
  {
    var u := SetReply(s, c);
    SetReplyKeeps(s, c);
    MiniSendKeeps(u, c, to, msg, false);
    SendBehind(u, c, to, msg, false, d, x, y);
    var r := MiniSend(u, c, to, msg, false);
    if r.1 == OK && Before(s.queues[d], x, y) {
      BeforeMembers(s.queues[d], x, y);
      if d == c && to == y { NoSendBack(u, c, y, msg); }
      QueuedElsewhere(r.0, c);
      ReceiveBehind(r.0, c, Ep(to), d, x, y);
      WaitsSince(r.0, c, Ep(to), d, x);
    }
  }

  lemma QueuedElsewhere(s: State, c: nat)
    requires Core(s) && c < s.Size()
    ensures c !in s.queues[c]
  {
    assert Local(c, s.procs[c], s.privs[c]);
  }

  /** A receive puts nobody on a queue. */
  lemma WaitsSince(s: State, c: nat, from: Target, d: nat, x: nat)
    requires s.Shape() && Queues(s) && c < s.Size() && c !in s.queues[c] && (from.Ep? ==> 0 <= from.e < s.Size()) && d < s.Size()
    ensures x in MiniReceive(s, c, from).0.queues[d] ==> x in s.queues[d]
  {
    ReceiveTakes(s, c, from);
  }

  lemma TrapBehind(s: State, c: nat, call: Call, to: Target, msg: Option<Body>, d: nat, x: nat, y: nat)
    requires Core(s) && Possible(s, Trap(c, call, to, msg)) && d < s.Size()
    requires !(d == c && call == RECEIVE && to == Ep(y))
    ensures Behind(s, DoSyncIpc(s, c, call, to, msg).0, d, x, y)
  {
    if Denial(s, c, call, to) == OK {
      assert Local(c, s.procs[c], s.privs[c]);
      match call
      case SENDREC => SendReceiveBehind(s, c, to.e, msg, d, x, y);
      case SEND => SendBehind(s, c, to.e, msg, false, d, x, y);
      case SENDNB => SendBehind(s, c, to.e, msg, true, d, x, y);
      case NOTIFY =>
      case RECEIVE =>
        ClearReplyKeeps(s, c);
        QueuedElsewhere(s, c);
        ReceiveBehind(ClearReply(s, c), c, to, d, x, y);
    }
  }

  lemma ExitBehind(s: State, rc: nat, d: nat, x: nat, y: nat)
    requires Inv(s) && Enabled(s, Exit(rc)) && d < s.Size() && rc != y
    ensures Behind(s, Apply(s, Exit(rc)).0, d, x, y)
  {
    StepReturns(s, Exit(rc));
    ExitResult(s, rc);
    ExitExact(s, rc);
    if d != rc {
      WithoutMembers(s.queues[d], rc);
      if x != rc { BeforeWithout(s.queues[d], rc, x, y); }
    }
  }

  /** The step takes `y` off the queue of `d` by name, or ends `y`. */
  predicate Singles(step: Step, d: nat, y: nat) {
    || step == Exit(y)
    || (step.Trap? && step.c == d && step.call == RECEIVE && step.to == Ep(y))
  }

  lemma StepBehind(s: State, step: Step, d: nat, x: nat, y: nat)
    requires Inv(s) && Enabled(s, step) && d < s.Size() && !Singles(step, d, y)
    ensures Behind(s, Apply(s, step).0, d, x, y)
  {
    match step
    case Trap(c, call, to, msg) => TrapBehind(s, c, call, to, msg, d, x, y);
    case OutOfQuantum(p, to, body) =>
      SendBehind(SetStops(s, p, s.procs[p].stops + {NO_QUANTUM}), p, to, Some(body), false, d, x, y);
    case Exit(rc) => ExitBehind(s, rc, d, x, y);
    case _ =>
  }

  /** In every run: while `x` waits on the queue of `d`, whoever came after it still waits behind it,
      unless `d` asks for that one by name or that one exits. */
  lemma {:induction false} FirstComeFirstServed(states: seq<State>, steps: seq<Step>, i: nat, j: nat, d: nat, x: nat, y: nat)
    requires Run(states, steps) && i <= j < |states|
    requires forall k :: i <= k <= j ==> Waiting(states[k], d, x)
    requires forall k :: i <= k < j ==> !Singles(steps[k], d, y)
    requires Waiting(states[i], d, x) && Before(states[i].queues[d], x, y)
    ensures Waiting(states[j], d, y) && Before(states[j].queues[d], x, y)
    decreases j - i
  {
    if i < j {
      var h := i + 1;
      RunsKeep(states, steps, i);
      assert Leads(states[i], steps[i], states[i + 1]);
      StepBehind(states[i], steps[i], d, x, y);
      assert Waiting(states[h], d, x);
      FirstComeFirstServed(states, steps, h, j, d, x, y);
    } else {
      BeforeMembers(states[i].queues[d], x, y);
    }
  }

  ghost predicate Waiting(s: State, d: nat, x: nat) { s.Shape() && d < s.Size() && x in s.queues[d] }

  // ---------------------------------------------------------------- messages given up

  /** The history has grown, and only messages from or to the processes in `who` have been given up. */
  ghost predicate GivesUp(s: State, t: State, who: set<nat>) {
    && s.log <= t.log
    && forall k :: |s.log| <= k < |t.log| && t.log[k].Cancelled? ==> t.log[k].src in who || t.log[k].dst in who
  }

  lemma GivesUpTwice(s: State, t: State, u: State, who: set<nat>)
    requires GivesUp(s, t, who) && GivesUp(t, u, who)
    ensures GivesUp(s, u, who)
  {
    forall k | |s.log| <= k < |u.log| && u.log[k].Cancelled? ensures u.log[k].src in who || u.log[k].dst in who {
      if k < |t.log| { assert u.log[k] == t.log[k]; }
    }
  }

  lemma AsideGivesUp(s: State, t: State)
    requires Aside(s, t)
    ensures GivesUp(s, t, {})
  {
    assert s.log <= t.log;
  }

  lemma MiniSendGivesUp(s: State, c: nat, d: nat, msg: Option<Body>, nonBlocking: bool)
    requires s.Shape() && c < s.Size() && d < s.Size()
    ensures GivesUp(s, MiniSend(s, c, d, msg, nonBlocking).0, {})
  {
  }

  lemma ReceiveQueuedGivesUp(s: State, c: nat, from: Target)
    requires s.Shape() && c < s.Size() && (from.Ep? ==> 0 <= from.e < s.Size())
    ensures GivesUp(s, ReceiveQueued(s, c, from).0, {})
  {
  }

  lemma MiniReceiveGivesUp(s: State, c: nat, from: Target)
    requires s.Shape() && c < s.Size() && (from.Ep? ==> 0 <= from.e < s.Size())
    ensures GivesUp(s, MiniReceive(s, c, from).0, {})
  {
    var id := HasPending(s.privs[c].notifyPending, from, s.Size());
    if (from.Ep? && s.procs[from.e].noEndpoint) || s.procs[c].sending {
    } else if !s.procs[c].replyPend && id.Some? {
    } else {
      var (t, r) := TryPending(s, c, from);
      AsideGivesUp(s, t);
      if r != OK {
        ReceiveQueuedGivesUp(t, c, from);
        GivesUpTwice(s, t, ReceiveQueued(t, c, from).0, {});
      }
    }
  }

  lemma TrapGivesUp(s: State, c: nat, call: Call, to: Target, msg: Option<Body>)
    requires s.Shape() && c < s.Size()
    ensures GivesUp(s, DoSyncIpc(s, c, call, to, msg).0, {})
  {
    if Denial(s, c, call, to) == OK {
      match call
      case SENDREC =>
        MiniSendGivesUp(SetReply(s, c), c, to.e, msg, false);
        var t := MiniSend(SetReply(s, c), c, to.e, msg, false);
        if t.1 == OK {
          MiniReceiveGivesUp(t.0, c, to);
          GivesUpTwice(s, t.0, MiniReceive(t.0, c, to).0, {});
        }
      case SEND => MiniSendGivesUp(s, c, to.e, msg, false);
      case SENDNB => MiniSendGivesUp(s, c, to.e, msg, true);
      case NOTIFY => AsideGivesUp(s, MiniNotify(s, c, to.e).0);
      case RECEIVE => MiniReceiveGivesUp(ClearReply(s, c), c, to);
    }
  }

  lemma ClearIpcGivesUp(s: State, p: nat, rc: nat)
    requires s.Shape() && p < s.Size() && (p == rc || BlockedOn(s.procs[p]) == rc)
    ensures GivesUp(s, ClearIpc(s, p), {rc})
  {
  }

  lemma ClearRefGivesUp(s: State, rc: nat, i: nat, code: Code)
    requires s.Shape() && rc < s.Size() && i < s.Size()
    ensures GivesUp(s, ClearRef(s, rc, i, code), {rc})
  {
    if !s.procs[i].slotFree && BlockedOn(s.procs[i]) == rc {
      ClearRefIs(s, rc, i, code);
      ClearIpcGivesUp(DropBits(s, rc, i, code), i, rc);
    }
  }

  lemma {:induction false} ClearRefsGivesUp(s: State, rc: nat, i: nat, code: Code)
    requires s.Shape() && rc < s.Size() && i <= s.Size()
    ensures GivesUp(s, ClearRefs(s, rc, i, code), {rc})
    decreases s.Size() - i
  {
    if i < s.Size() {
      var t := ClearRef(s, rc, i, code);
      ClearRefGivesUp(s, rc, i, code);
      ClearRefsGivesUp(t, rc, i + 1, code);
      GivesUpTwice(s, t, ClearRefs(t, rc, i + 1, code), {rc});
    }
  }

  lemma ExitGivesUp(s: State, rc: nat)
    requires s.Shape() && rc < s.Size()
    ensures GivesUp(s, ClearEndpoint(s, rc).0, {rc})
  {
    var k := Kill(s, rc);
    var t := ClearIpc(k, rc);
    var u := CancelAll(t, rc);
    ClearIpcGivesUp(k, rc, rc);
    assert GivesUp(s, t, {rc});
    AsideGivesUp(t, u.0);
    GivesUpTwice(s, t, u.0, {rc});
    if u.1 == OK {
      ClearRefsGivesUp(u.0, rc, 0, EDEADSRCDST);
      GivesUpTwice(s, u.0, ClearRefs(u.0, rc, 0, EDEADSRCDST), {rc});
    }
  }

  /** Only exit gives messages up, and only those from or to the process that exits. */
  lemma StepGivesUp(s: State, step: Step)
    requires s.Shape() && Possible(s, step)
    ensures GivesUp(s, Apply(s, step).0, if step.Exit? then {step.rc} else {})
  {
    match step
    case Trap(c, call, to, msg) => TrapGivesUp(s, c, call, to, msg);
    case Senda(c, table) => AsideGivesUp(s, MiniSenda(s, c, table).0);
    case OutOfQuantum(p, d, body) =>
      MiniSendGivesUp(SetStops(s, p, s.procs[p].stops + {NO_QUANTUM}), p, d, Some(body), false);
    case Signal(src, dst) => AsideGivesUp(s, MiniNotify(s, src, dst).0);
    case CopyOut(p) => AsideGivesUp(s, Delivered(s, p));
    case Halt(_, _) =>
    case Continue(_, _) =>
    case Exit(rc) => ExitGivesUp(s, rc);
  }

  ghost predicate ExitsBefore(steps: seq<Step>, k: nat, x: nat) {
    exists j :: 0 <= j < k && j < |steps| && steps[j] == Exit(x)
  }

  /** In every run, a message that was given up was from or to a process that had exited. */
  lemma {:induction false} GivenUpByExit(states: seq<State>, steps: seq<Step>, k: nat, m: nat)
    requires Run(states, steps) && k < |states| && m < |states[k].log| && states[k].log[m].Cancelled?
    ensures var e := states[k].log[m]; ExitsBefore(steps, k, e.src) || ExitsBefore(steps, k, e.dst)
  {
    if k > 0 {
      var h := k - 1;
      assert Leads(states[h], steps[h], states[h + 1]);
      StepGivesUp(states[h], steps[h]);
      var e := states[k].log[m];
      if m < |states[h].log| {
        assert states[h].log[m] == e;
        GivenUpByExit(states, steps, h, m);
        ExitsBeforeLater(steps, h, e.src);
        ExitsBeforeLater(steps, h, e.dst);
      } else {
        assert steps[h].Exit? && (steps[h] == Exit(e.src) || steps[h] == Exit(e.dst));
      }
    }
  }

  lemma ExitsBeforeLater(steps: seq<Step>, k: nat, x: nat)
    ensures ExitsBefore(steps, k, x) ==> ExitsBefore(steps, k + 1, x)
  {
  }
}
