/** What a synchronous call returns and does, branch by branch. */
module IpcResults {
  import opened IpcTypes
  import opened WaitGraph
  import opened IpcSpec
  import opened IpcInv
  import opened IpcCalls
  import opened IpcRun
  import opened IpcAccepts
  import IpcTheorems

  // ---------------------------------------------------------------- mini_send

  /** The message `b` of `c` is in the buffer of `d`, which waits no more and has its reply, and nothing else
      has changed. */
  predicate HandedOver(s: State, t: State, c: nat, d: nat, b: Body)
    requires s.Sized() && d < s.Size()
  {
    && t.procs == s.procs[d := s.procs[d].(delivered := Message(c, b), deliverMsg := true, receiving := false, replyPend := false)]
    && t.privs == s.privs && t.queues == s.queues && t.log == s.log + [Accepted(c, d, b)] + [Placed(c, d, b)]
  }

  /** `c` waits with the message `b` at the end of the queue of `d`, and nothing else has changed. */
  predicate LinedUp(s: State, t: State, c: nat, d: nat, b: Body)
    requires s.Sized() && c < s.Size() && d < s.Size()
  {
    && t.procs == s.procs[c := s.procs[c].(sending := true, sendTo := d, sendMsg := b)]
    && t.queues == s.queues[d := s.queues[d] + [c]]
    && t.privs == s.privs && t.log == s.log + [Accepted(c, d, b)]
  }

  /** The result `o` of a send of `c` to `d`: delivered at once to one who waits for it; otherwise blocked, unless
      that is not wanted or would lock; each refusal exactly for its reason, and without effect. */
  ghost predicate SendOutcome(s: State, c: nat, d: nat, msg: Option<Body>, nonBlocking: bool, o: (State, Code))
    requires s.Sized() && c < s.Size() && d < s.Size()
  {
    var gone, waits, locks := s.procs[d].noEndpoint, WillReceive(s.procs[d], c), Reaches(Waits(s), d, c);
    && (o.1 == EDEADSRCDST <==> gone)
    && (o.1 == ENOTREADY <==> !gone && !waits && nonBlocking)
    && (o.1 == ELOCKED <==> !gone && !waits && !nonBlocking && locks)
    && (o.1 == EFAULT <==> !gone && msg.None? && (waits || (!nonBlocking && !locks)))
    && (o.1 == OK <==> !gone && msg.Some? && (waits || (!nonBlocking && !locks)))
    && (o.1 != OK ==> o.0 == s)
    && (o.1 == OK && msg.Some? ==> if waits then HandedOver(s, o.0, c, d, msg.value) else LinedUp(s, o.0, c, d, msg.value))
  }

  lemma SendExact(s: State, c: nat, d: nat, msg: Option<Body>, nonBlocking: bool)
    requires Core(s) && c < s.Size() && d < s.Size() && c != d
    ensures SendOutcome(s, c, d, msg, nonBlocking, MiniSend(s, c, d, msg, nonBlocking))
  {
    if WillReceive(s.procs[d], c) {
      if msg.Some? { HandedOverExact(s, c, d, msg.value); }
    } else {
      SendDeadlockExact(s, c, d);
    }
  }

  lemma HandedOverExact(s: State, c: nat, d: nat, b: Body)
    requires s.Sized() && c < s.Size() && d < s.Size()
    ensures HandedOver(s, DirectSend(s, c, d, b), c, d, b)
  {
    var t := DirectSend(s, c, d, b);
    assert t.procs == s.procs[d := t.procs[d]];
  }

  // ---------------------------------------------------------------- what is refused

  /** What a call needs: the trap in the mask, a destination in use, the right to send to it, and a kernel task
      is named only by SENDREC and RECEIVE. */
  predicate Permitted(s: State, c: nat, call: Call, to: Target)
    requires s.Sized() && c < s.Size()
  {
    && call in s.privs[c].traps
    && (to == ANY ==> call == RECEIVE)
    && (to.Ep? ==> 0 <= to.e < s.Size() && !s.procs[to.e].slotFree)
    && (to.Ep? && call != RECEIVE ==> to.e in s.privs[c].ipcTo)
    && (to.Ep? && to.e < NR_TASKS ==> call == SENDREC || call == RECEIVE)
  }

  predicate Refusing(r: Code) { r == EINVAL || r == ECALLDENIED || r == ETRAPDENIED }

  /** Which refusal it is: the first test that fails. */
  ghost predicate RefusedAs(s: State, c: nat, call: Call, to: Target, r: Code)
    requires s.Sized() && c < s.Size()
  {
    var named := to.Ep?;
    var used := named && 0 <= to.e < s.Size() && !s.procs[to.e].slotFree;
    var mayName := !named || (used && (call == RECEIVE || to.e in s.privs[c].ipcTo));
    && (r == EINVAL <==> !named && call != RECEIVE)
    && (r == EDEADSRCDST <==> named && !used)
    && (r == ECALLDENIED <==> named && used && !mayName)
    && (r == ETRAPDENIED <==>
          ((named || call == RECEIVE) && mayName &&
            (call !in s.privs[c].traps || (named && to.e < NR_TASKS && call != SENDREC && call != RECEIVE))))
  }

  lemma MiniReceiveCodes(s: State, c: nat, from: Target)
    requires s.Shape() && c < s.Size() && (from.Ep? ==> 0 <= from.e < s.Size())
    ensures !Refusing(MiniReceive(s, c, from).1)
  {
    var id := HasPending(s.privs[c].notifyPending, from, s.Size());
    if (from.Ep? && s.procs[from.e].noEndpoint) || s.procs[c].sending {
    } else if !s.procs[c].replyPend && id.Some? {
    } else {
      var (t, r) := TryPending(s, c, from);
      if r != OK { ReceiveQueuedCodes(t, c, from); }
    }
  }

  lemma ReceiveQueuedCodes(s: State, c: nat, from: Target)
    requires s.Shape() && c < s.Size() && (from.Ep? ==> 0 <= from.e < s.Size())
    ensures !Refusing(ReceiveQueued(s, c, from).1)
  {
  }

  lemma MiniSendCodes(s: State, c: nat, d: nat, msg: Option<Body>, nonBlocking: bool)
    requires s.Shape() && c < s.Size() && d < s.Size()
    ensures !Refusing(MiniSend(s, c, d, msg, nonBlocking).1)
  {
  }

  /** A call that is not permitted changes nothing and is refused for the first reason there is; one that is
      permitted is not refused by the checks. */
  lemma CallChecked(s: State, c: nat, call: Call, to: Target, msg: Option<Body>)
    requires s.Shape() && c < s.Size()
    ensures var (t, r) := DoSyncIpc(s, c, call, to, msg);
      if Permitted(s, c, call, to) then !Refusing(r) else t == s && RefusedAs(s, c, call, to, r) && (Refusing(r) || r == EDEADSRCDST)
  {
    if Permitted(s, c, call, to) {
      PermittedRuns(s, c, call, to, msg);
    } else {
      NotPermitted(s, c, call, to, msg);
    }
  }

  lemma NotPermitted(s: State, c: nat, call: Call, to: Target, msg: Option<Body>)
    requires s.Shape() && c < s.Size() && !Permitted(s, c, call, to)
    ensures var (t, r) := DoSyncIpc(s, c, call, to, msg);
      t == s && RefusedAs(s, c, call, to, r) && (Refusing(r) || r == EDEADSRCDST)
  {
    assert Denial(s, c, call, to) != OK;
  }

  lemma PermittedRuns(s: State, c: nat, call: Call, to: Target, msg: Option<Body>)
    requires s.Shape() && c < s.Size() && Permitted(s, c, call, to)
    ensures !Refusing(DoSyncIpc(s, c, call, to, msg).1)
  {
    assert Denial(s, c, call, to) == OK;
    match call
    case SENDREC =>
      MiniSendCodes(SetReply(s, c), c, to.e, msg, false);
      var t := MiniSend(SetReply(s, c), c, to.e, msg, false);
      if t.1 == OK { MiniReceiveCodes(t.0, c, to); }
    case SEND => MiniSendCodes(s, c, to.e, msg, false);
    case SENDNB => MiniSendCodes(s, c, to.e, msg, true);
    case NOTIFY =>
    case RECEIVE => MiniReceiveCodes(ClearReply(s, c), c, to);
  }

  // ---------------------------------------------------------------- sends as calls

  /** SEND and SENDNB that are permitted have the outcome of a send. */
  lemma CallSends(s: State, c: nat, call: Call, d: nat, msg: Option<Body>)
    requires Core(s) && MayTrap(s, c) && Permitted(s, c, call, Ep(d)) && (call == SEND || call == SENDNB)
    ensures SendOutcome(s, c, d, msg, call == SENDNB, DoSyncIpc(s, c, call, Ep(d), msg))
  {
    assert Denial(s, c, call, Ep(d)) == OK;
    NotToItself(s, c, call, Ep(d));
    SendExact(s, c, d, msg, call == SENDNB);
  }

  /** A SENDREC that is permitted returns what its send half returns, and hands its message to one who waits. */
  lemma CallSendrecs(s: State, c: nat, d: nat, msg: Option<Body>)
    requires Core(s) && MayTrap(s, c) && Permitted(s, c, SENDREC, Ep(d))
    ensures var u := s.With(c, s.procs[c].(replyPend := true)); var half := MiniSend(u, c, d, msg, false);
      && SendOutcome(u, c, d, msg, false, half)
      && DoSyncIpc(s, c, SENDREC, Ep(d), msg).1 == half.1
      && (half.1 != OK ==> DoSyncIpc(s, c, SENDREC, Ep(d), msg).0 == u)
  {
    assert Denial(s, c, SENDREC, Ep(d)) == OK;
    NotToItself(s, c, SENDREC, Ep(d));
    SetReplyKeeps(s, c);
    SendExact(SetReply(s, c), c, d, msg, false);
    if MiniSend(SetReply(s, c), c, d, msg, false).1 == OK { IpcTheorems.SecondHalfSucceeds(s, c, d, msg); }
  }

  /** A process out of quantum is stopped for that, and its message to the scheduler has the outcome of a send. */
  lemma QuantumSends(s: State, p: nat, d: nat, body: Body)
    requires Core(s) && Possible(s, OutOfQuantum(p, d, body))
    ensures var u := s.With(p, s.procs[p].(stops := s.procs[p].stops + {NO_QUANTUM}));
      SendOutcome(u, p, d, Some(body), false, Apply(s, OutOfQuantum(p, d, body)))
  {
    var t := SetStops(s, p, s.procs[p].stops + {NO_QUANTUM});
    FlagsCore(s, p, t.procs[p]);
    SendExact(t, p, d, Some(body), false);
  }

  // ---------------------------------------------------------------- over runs

  /** The step was a send of `c` to `d` that its masks allow, or the kernel's own on behalf of `c`. */
  predicate Entitled(s: State, step: Step, c: nat, d: nat) {
    || (step.OutOfQuantum? && step.p == c && step.d == d)
    || (step.Trap? && step.c == c && step.to == Ep(d) && s.Sized() && c < s.Size() && Permitted(s, c, step.call, step.to))
  }

  lemma AddsEntitled(s: State, step: Step, m: nat)
    requires Core(s) && Possible(s, step) && m < |Adds(step, Apply(s, step).1)|
    ensures var e := Adds(step, Apply(s, step).1)[m]; e.Accepted? && Entitled(s, step, e.src, e.dst)
  {
    if step.Trap? { CallChecked(s, step.c, step.call, step.to, step.msg); }
  }

  /** In every run, every message that was ever accepted was sent by a call that the masks of its sender allowed
      at the time, or by the kernel on behalf of a process out of quantum. */
  lemma {:induction false} AcceptedEntitled(states: seq<State>, steps: seq<Step>, k: nat, m: nat)
    requires Run(states, steps) && k < |states| && m < |AcceptedIn(states[k].log)|
    ensures var e := AcceptedIn(states[k].log)[m];
      e.Accepted? && exists j :: 0 <= j < k && j < |steps| && Entitled(states[j], steps[j], e.src, e.dst)
  {
    if k > 0 {
      var h := k - 1;
      RunsKeep(states, steps, h);
      assert Leads(states[h], steps[h], states[h + 1]);
      StepAccepts(states[h], steps[h]);
      var before := AcceptedIn(states[h].log);
      if m < |before| {
        AcceptedEntitled(states, steps, h, m);
      } else {
        AddsEntitled(states[h], steps[h], m - |before|);
      }
    }
  }
}
