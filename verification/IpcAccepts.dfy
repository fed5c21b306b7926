/** The history records as accepted exactly the sends that returned OK. */
module IpcAccepts {
  import opened IpcTypes
  import opened IpcSpec
  import opened IpcInv
  import opened IpcCalls
  import opened IpcExit
  import opened IpcRun
  import IpcTheorems

  /** The sends that the history records as accepted. */
  function AcceptedIn(log: seq<Event>): seq<Event> {
    if log == [] then []
    else
      var e := log[|log| - 1];
      AcceptedIn(log[..|log| - 1]) + if e.Accepted? then [e] else []
  }

  lemma AcceptedAppends(log: seq<Event>, e: Event)
    ensures AcceptedIn(log + [e]) == AcceptedIn(log) + if e.Accepted? then [e] else []
  {
    assert (log + [e])[..|log|] == log;
  }

  lemma {:induction false} QuietAccepts(was: seq<Event>, now: seq<Event>)
    requires Quiet(was, now)
    ensures AcceptedIn(now) == AcceptedIn(was)
    decreases |now|
  {
    if |now| == |was| {
      assert now == was;
    } else {
      var shorter := now[..|now| - 1];
      assert shorter[..|was|] == was;
      QuietAccepts(was, shorter);
    }
  }

  /** What a send adds. */
  function Posting(c: nat, d: nat, msg: Option<Body>, r: Code): seq<Event> {
    if r == OK && msg.Some? then [Accepted(c, d, msg.value)] else []
  }

  lemma MiniSendAccepts(s: State, c: nat, d: nat, msg: Option<Body>, nonBlocking: bool)
    requires s.Shape() && c < s.Size() && d < s.Size()
    ensures var (t, r) := MiniSend(s, c, d, msg, nonBlocking);
      AcceptedIn(t.log) == AcceptedIn(s.log) + Posting(c, d, msg, r) && (r == OK ==> msg.Some?)
  {
    if msg.Some? {
      AcceptedAppends(s.log, Accepted(c, d, msg.value));
      AcceptedAppends(s.log + [Accepted(c, d, msg.value)], Placed(c, d, msg.value));
    }
  }

  lemma ReceiveQueuedAccepts(s: State, c: nat, from: Target)
    requires s.Shape() && c < s.Size() && (from.Ep? ==> 0 <= from.e < s.Size())
    ensures AcceptedIn(ReceiveQueued(s, c, from).0.log) == AcceptedIn(s.log)
  {
    var p := FirstSender(s.queues[c], from);
    if p.Some? { AcceptedAppends(s.log, Placed(p.value, c, s.procs[p.value].sendMsg)); }
  }

  lemma MiniReceiveAccepts(s: State, c: nat, from: Target)
    requires s.Shape() && c < s.Size() && (from.Ep? ==> 0 <= from.e < s.Size())
    ensures AcceptedIn(MiniReceive(s, c, from).0.log) == AcceptedIn(s.log)
  {
    var id := HasPending(s.privs[c].notifyPending, from, s.Size());
    if (from.Ep? && s.procs[from.e].noEndpoint) || s.procs[c].sending {
    } else if !s.procs[c].replyPend && id.Some? {
      AcceptedAppends(s.log, Notified(id.value, c));
    } else {
      var (t, r) := TryPending(s, c, from);
      QuietAccepts(s.log, t.log);
      if r != OK { ReceiveQueuedAccepts(t, c, from); }
    }
  }

  /** SENDREC returns OK exactly if its send half did. */
  lemma SendReceiveAccepts(s: State, c: nat, d: nat, msg: Option<Body>)
    requires Core(s) && c < s.Size() && d < s.Size() && c != d && Idle(s.procs[c])
    ensures var (t, r) := SendReceive(s, c, d, msg);
      AcceptedIn(t.log) == AcceptedIn(s.log) + Posting(c, d, msg, r) && (r == OK ==> msg.Some?)
  {
    var u := SetReply(s, c);
    MiniSendAccepts(u, c, d, msg, false);
    var t := MiniSend(u, c, d, msg, false);
    if t.1 == OK {
      IpcTheorems.SecondHalfSucceeds(s, c, d, msg);
      MiniReceiveAccepts(t.0, c, Ep(d));
    }
  }

  lemma ClearIpcAccepts(s: State, p: nat)
    requires s.Shape() && p < s.Size()
    ensures AcceptedIn(ClearIpc(s, p).log) == AcceptedIn(s.log)
  {
    AcceptedAppends(s.log, Cancelled(p, s.procs[p].sendTo, s.procs[p].sendMsg));
  }

  lemma ClearRefAccepts(s: State, rc: nat, i: nat, code: Code)
    requires s.Shape() && rc < s.Size() && i < s.Size()
    ensures AcceptedIn(ClearRef(s, rc, i, code).log) == AcceptedIn(s.log)
  {
    if !s.procs[i].slotFree {
      ClearRefIs(s, rc, i, code);
      ClearIpcAccepts(DropBits(s, rc, i, code), i);
    }
  }

  lemma {:induction false} ClearRefsAccepts(s: State, rc: nat, i: nat, code: Code)
    requires s.Shape() && rc < s.Size() && i <= s.Size()
    ensures AcceptedIn(ClearRefs(s, rc, i, code).log) == AcceptedIn(s.log)
    decreases s.Size() - i
  {
    if i < s.Size() {
      ClearRefAccepts(s, rc, i, code);
      ClearRefsAccepts(ClearRef(s, rc, i, code), rc, i + 1, code);
    }
  }

  lemma ExitAccepts(s: State, rc: nat)
    requires s.Shape() && rc < s.Size()
    ensures AcceptedIn(ClearEndpoint(s, rc).0.log) == AcceptedIn(s.log)
  {
    var t := ClearIpc(Kill(s, rc), rc);
    ClearIpcAccepts(Kill(s, rc), rc);
    QuietAccepts(t.log, CancelAll(t, rc).0.log);
    ClearRefsAccepts(CancelAll(t, rc).0, rc, 0, EDEADSRCDST);
  }

  /** The step asks for a synchronous send. */
  predicate IsSend(step: Step) {
    (step.Trap? && (step.call == SEND || step.call == SENDNB || step.call == SENDREC)) || step.OutOfQuantum?
  }

  /** What it adds to the history if it returns `r`. */
  function Adds(step: Step, r: Code): seq<Event> {
    if r != OK || !IsSend(step) then []
    else match step
      case Trap(c, _, to, msg) => if to.Ep? && to.e >= 0 then Posting(c, to.e, msg, r) else []
      case OutOfQuantum(p, d, body) => Posting(p, d, Some(body), r)
      case _ => []
  }

  /** The outcome `o` of a step on `s` is on record: one accepted message if it is a send that returned OK,
      none otherwise. */
  ghost predicate OnRecord(s: State, step: Step, o: (State, Code)) {
    && AcceptedIn(o.0.log) == AcceptedIn(s.log) + Adds(step, o.1)
    && (|Adds(step, o.1)| == 1 <==> IsSend(step) && o.1 == OK)
  }

  /** A send that is not refused. */
  lemma SendAccepts(s: State, c: nat, call: Call, d: nat, msg: Option<Body>)
    requires Core(s) && MayTrap(s, c) && d < s.Size() && c != d && Denial(s, c, call, Ep(d)) == OK
    requires call == SEND || call == SENDNB || call == SENDREC
    ensures OnRecord(s, Trap(c, call, Ep(d), msg), DoSyncIpc(s, c, call, Ep(d), msg))
  {
    if call == SENDREC {
      SendReceiveAccepts(s, c, d, msg);
      Recorded(s, c, call, d, msg, SendReceive(s, c, d, msg));
    } else {
      MiniSendAccepts(s, c, d, msg, call == SENDNB);
      Recorded(s, c, call, d, msg, MiniSend(s, c, d, msg, call == SENDNB));
    }
  }

  lemma Recorded(s: State, c: nat, call: Call, d: nat, msg: Option<Body>, o: (State, Code))
    requires call == SEND || call == SENDNB || call == SENDREC
    requires AcceptedIn(o.0.log) == AcceptedIn(s.log) + Posting(c, d, msg, o.1) && (o.1 == OK ==> msg.Some?)
    ensures OnRecord(s, Trap(c, call, Ep(d), msg), o)
  {
  }

  lemma OtherAccepts(s: State, c: nat, call: Call, to: Target, msg: Option<Body>)
    requires s.Shape() && c < s.Size() && Denial(s, c, call, to) == OK && (call == NOTIFY || call == RECEIVE)
    ensures OnRecord(s, Trap(c, call, to, msg), DoSyncIpc(s, c, call, to, msg))
  {
    if call == NOTIFY {
      QuietAccepts(s.log, MiniNotify(s, c, to.e).0.log);
    } else {
      MiniReceiveAccepts(ClearReply(s, c), c, to);
    }
  }

  lemma RefusedAccepts(s: State, c: nat, call: Call, to: Target, msg: Option<Body>)
    requires s.Shape() && c < s.Size() && Denial(s, c, call, to) != OK
    ensures OnRecord(s, Trap(c, call, to, msg), DoSyncIpc(s, c, call, to, msg))
  {
  }

  lemma TrapAccepts(s: State, c: nat, call: Call, to: Target, msg: Option<Body>)
    requires Core(s) && Possible(s, Trap(c, call, to, msg))
    ensures OnRecord(s, Trap(c, call, to, msg), DoSyncIpc(s, c, call, to, msg))
  {
    if Denial(s, c, call, to) != OK {
      RefusedAccepts(s, c, call, to, msg);
    } else if call == NOTIFY || call == RECEIVE {
      OtherAccepts(s, c, call, to, msg);
    } else {
      NotToItself(s, c, call, to);
      SendAccepts(s, c, call, to.e, msg);
    }
  }

  lemma NotToItself(s: State, c: nat, call: Call, to: Target)
    requires Core(s) && c < s.Size() && call != RECEIVE && Denial(s, c, call, to) == OK
    ensures to.Ep? && 0 <= to.e < s.Size() && to.e != c
  {
    assert Local(c, s.procs[c], s.privs[c]);
  }

  lemma CallAccepts(s: State, step: Step)
    requires Core(s) && Possible(s, step) && step.Trap?
    ensures OnRecord(s, step, Apply(s, step))
  {
    TrapAccepts(s, step.c, step.call, step.to, step.msg);
  }

  lemma LeaveAccepts(s: State, step: Step)
    requires s.Shape() && Possible(s, step) && step.Exit?
    ensures OnRecord(s, step, Apply(s, step))
  {
    ExitAccepts(s, step.rc);
  }

  lemma QuantumAccepts(s: State, step: Step)
    requires s.Shape() && Possible(s, step) && step.OutOfQuantum?
    ensures OnRecord(s, step, Apply(s, step))
  {
    var t := SetStops(s, step.p, s.procs[step.p].stops + {NO_QUANTUM});
    MiniSendAccepts(t, step.p, step.d, Some(step.body), false);
  }

  lemma ManageAccepts(s: State, step: Step)
    requires s.Shape() && Possible(s, step) && !step.Trap? && !step.OutOfQuantum? && !step.Exit?
    ensures OnRecord(s, step, Apply(s, step))
  {
    QuietAccepts(s.log, Apply(s, step).0.log);
  }

  /** A step adds one accepted message, with its sender, destination and contents, if it is a send that returns
      OK, and none otherwise. */
  lemma StepAccepts(s: State, step: Step)
    requires Core(s) && Possible(s, step)
    ensures OnRecord(s, step, Apply(s, step))
  {
    if step.Trap? {
      CallAccepts(s, step);
    } else if step.OutOfQuantum? {
      QuantumAccepts(s, step);
    } else if step.Exit? {
      LeaveAccepts(s, step);
    } else {
      ManageAccepts(s, step);
    }
  }
}
