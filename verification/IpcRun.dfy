/** Runs of the kernel: every state that any sequence of kernel entries leads to satisfies the
    whole invariant. */
module IpcRun {
  import opened IpcTypes
  import opened WaitGraph
  import opened Lists
  import opened IpcSpec
  import opened IpcInv
  import opened IpcCalls
  import opened IpcExit
  import opened IpcHistory
  import opened IpcAsync
  import opened IpcPending
  import opened IpcLiving
  import opened IpcSteps

  // ---------------------------------------------------------------- steps

  datatype Step =
    | Trap(c: nat, call: Call, to: Target, msg: Option<Body>)   // do_sync_ipc
    | Senda(c: nat, table: seq<Entry>)                          // SENDA
    | OutOfQuantum(p: nat, d: nat, body: Body)                  // notify_scheduler
    | Signal(src: nat, dst: int)                                // mini_notify by the kernel itself
    | CopyOut(p: nat)                                           // delivermsg
    | Halt(p: nat, f: Stop) | Continue(p: nat, f: Stop)         // other runtime flags
    | Exit(rc: nat)                                             // clear_endpoint

  /** A process that can enter the kernel: do_ipc panics on an undelivered message. */
  predicate MayTrap(s: State, c: nat) { c < s.Size() && s.procs[c].Runnable() && !s.procs[c].deliverMsg }

  /** What the source may be asked to do. */
  predicate Possible(s: State, step: Step) {
    match step
    case Trap(c, call, to, _) => MayTrap(s, c)
    case Senda(c, _) => MayTrap(s, c)
    case OutOfQuantum(p, d, _) => MayTrap(s, p) && OkEndpoint(s, d) && p != d
    case Signal(src, _) => src < s.Size()
    case CopyOut(p) => p < s.Size() && s.procs[p].Runnable() && s.procs[p].deliverMsg
    case Halt(p, _) => p < s.Size()
    case Continue(p, _) => p < s.Size()
    case Exit(rc) => rc < s.Size() && rc != ASYNCM && !s.procs[rc].slotFree
  }

  /** A RECEIVE that makes its caller wait for itself. */
  predicate SelfWait(s: State, step: Step) {
    && step.Trap? && step.call == RECEIVE && step.to == Ep(step.c)
    && step.c < |s.privs| && RECEIVE in s.privs[step.c].traps && step.c !in s.privs[step.c].notifyPending
  }

  predicate Enabled(s: State, step: Step) { Possible(s, step) && !SelfWait(s, step) }

  function SetStops(s: State, p: nat, stops: set<Stop>): (t: State)
    requires p < s.Size()
    ensures t.Size() == s.Size() && (s.Shape() ==> t.Shape()) && (Arrivals(s) ==> Arrivals(t))
  {
    s.With(p, s.procs[p].(stops := stops))
  }

  function Delivered(s: State, p: nat): (t: State)
    requires s.Sized() && p < s.Size()
    ensures Aside(s, t)
  {
    var e := Copied(p, s.procs[p].delivered);
    assert forall i :: 0 <= i < s.Size() ==> Box(s.log + [e], i) == if i == p then None else Box(s.log, i) by {
      forall i | 0 <= i < s.Size() { ArrivalAppends(s.log, e, i); }
    }
    s.With(p, s.procs[p].(deliverMsg := false)).Note([e])
  }

  function Apply(s: State, step: Step): (r: (State, Code))
    requires s.Shape() && Possible(s, step)
    ensures r.0.Size() == s.Size()
    ensures Arrivals(s) ==> Arrivals(r.0)
  {
    match step
    case Trap(c, call, to, msg) => DoSyncIpc(s, c, call, to, msg)
    case Senda(c, table) => MiniSenda(s, c, table)
    case OutOfQuantum(p, d, body) =>
      MiniSend(SetStops(s, p, s.procs[p].stops + {NO_QUANTUM}), p, d, Some(body), false)
    case Signal(src, dst) => MiniNotify(s, src, dst)
    case CopyOut(p) => (Delivered(s, p), OK)
    case Halt(p, f) => (SetStops(s, p, s.procs[p].stops + {f}), OK)
    case Continue(p, f) => (SetStops(s, p, s.procs[p].stops - {f}), OK)
    case Exit(rc) => ClearEndpoint(s, rc)
  }

  ghost predicate Inv(s: State) {
    && Core(s) && LivingOnly(s) && Arrivals(s) && Books(s) && AsyncInv(s)
  }

  // ---------------------------------------------------------------- the tables

  /** A change of flags that the invariant does not speak about. */
  predicate SameButFlags(p: Proc, q: Proc) {
    q == p.(stops := q.stops)
  }

  lemma FlagsCore(s: State, p: nat, q: Proc)
    requires Core(s) && p < s.Size() && SameButFlags(s.procs[p], q)
    ensures Core(s.With(p, q))
  {
    KeepsWaits(s, s.With(p, q));
    LocalAt(s, s.With(p, q), p);
  }

  lemma CopyCore(s: State, p: nat)
    requires Core(s) && p < s.Size()
    ensures Core(Delivered(s, p))
  {
    KeepsWaits(s, Delivered(s, p));
    LocalAt(s, Delivered(s, p), p);
  }

  /** After the send half of SENDREC the receive half may start. */
  lemma SecondHalf(s: State, c: nat, d: nat, msg: Option<Body>)
    requires s.Shape() && c < s.Size() && d < s.Size() && c != d && Idle(s.procs[c])
    requires MiniSend(SetReply(s, c), c, d, msg, false).1 == OK
    ensures MayReceive(MiniSend(SetReply(s, c), c, d, msg, false).0.procs[c], c, Ep(d))
  {
  }

  lemma SendReceiveCore(s: State, c: nat, d: nat, msg: Option<Body>)
    requires Core(s) && c < s.Size() && d < s.Size() && c != d && Idle(s.procs[c])
    ensures Core(SendReceive(s, c, d, msg).0) && SendReceive(s, c, d, msg).1 != Hung
  {
    var t := SetReply(s, c);
    SetReplyKeeps(s, c);
    MiniSendKeeps(t, c, d, msg, false);
    var r := MiniSend(t, c, d, msg, false);
    if r.1 == OK {
      SecondHalf(s, c, d, msg);
      MiniReceiveKeeps(r.0, c, Ep(d));
    }
  }

  /** A notification from itself is all that a process receives from itself. */
  lemma SelfTakes(s: State, c: nat)
    requires s.Shape() && MayTrap(s, c) && c in s.privs[c].notifyPending
    ensures MiniReceive(ClearReply(s, c), c, Ep(c)) == (TakeNotice(ClearReply(s, c), c, c), OK)
  {
  }

  lemma TrapCore(s: State, c: nat, call: Call, to: Target, msg: Option<Body>)
    requires Core(s) && Enabled(s, Trap(c, call, to, msg))
    ensures var r := DoSyncIpc(s, c, call, to, msg); Core(r.0) && r.1 != Hung
  {
    if Denial(s, c, call, to) == OK {
      match call
      case SENDREC => SendReceiveCore(s, c, to.e, msg);
      case SEND => MiniSendKeeps(s, c, to.e, msg, false);
      case SENDNB => MiniSendKeeps(s, c, to.e, msg, true);
      case NOTIFY => NotifyKeeps(s, c, to.e);
      case RECEIVE =>
        ReceiveCore(s, c, to);
    }
  }

  lemma ReceiveCore(s: State, c: nat, to: Target)
    requires Core(s) && MayTrap(s, c) && (to.Ep? ==> 0 <= to.e < s.Size())
    requires to == Ep(c) ==> c in s.privs[c].notifyPending
    ensures var r := MiniReceive(ClearReply(s, c), c, to); Core(r.0) && r.1 != Hung
  {
    ClearReplyKeeps(s, c);
    if to == Ep(c) { SelfTakes(s, c); TakeNoticeKeeps(ClearReply(s, c), c, c); }
    else { MiniReceiveKeeps(ClearReply(s, c), c, to); }
  }

  lemma StepCore(s: State, step: Step)
    requires Core(s) && Enabled(s, step)
    ensures Core(Apply(s, step).0)
  {
    match step
    case Trap(c, call, to, msg) => TrapCore(s, c, call, to, msg);
    case Senda(c, table) => MiniSendaKeeps(s, c, table);
    case OutOfQuantum(p, d, body) =>
      var t := SetStops(s, p, s.procs[p].stops + {NO_QUANTUM});
      FlagsCore(s, p, t.procs[p]);
      MiniSendKeeps(t, p, d, Some(body), false);
    case Signal(src, dst) => NotifyKeeps(s, src, dst);
    case CopyOut(p) => CopyCore(s, p);
    case Halt(p, f) => FlagsCore(s, p, SetStops(s, p, s.procs[p].stops + {f}).procs[p]);
    case Continue(p, f) => FlagsCore(s, p, SetStops(s, p, s.procs[p].stops - {f}).procs[p]);
    case Exit(rc) => ClearEndpointKeeps(s, rc);
  }

  // ---------------------------------------------------------------- who waits for whom

  lemma FlagsLiving(s: State, p: nat, q: Proc)
    requires LivingOnly(s) && p < s.Size() && SameButFlags(s.procs[p], q)
    ensures LivingOnly(s.With(p, q))
  {
    KeepsLiving(s, s.With(p, q));
  }

  lemma SendReceiveLiving(s: State, c: nat, d: nat, msg: Option<Body>)
    requires Core(s) && LivingOnly(s) && c < s.Size() && OkEndpoint(s, d) && c != d && Idle(s.procs[c]) && Alive(s, c)
    ensures LivingOnly(SendReceive(s, c, d, msg).0)
  {
    var t := SetReply(s, c);
    SetReplyKeeps(s, c);
    KeepsLiving(s, t);
    MiniSendLiving(t, c, d, msg, false);
    MiniSendKeeps(t, c, d, msg, false);
    var r := MiniSend(t, c, d, msg, false);
    if r.1 == OK {
      SecondHalf(s, c, d, msg);
      SecondHalfAlive(s, c, d, msg);
      MiniReceiveLiving(r.0, c, Ep(d));
    }
  }

  lemma SecondHalfAlive(s: State, c: nat, d: nat, msg: Option<Body>)
    requires s.Shape() && c < s.Size() && OkEndpoint(s, d) && Alive(s, c)
    ensures var t := MiniSend(SetReply(s, c), c, d, msg, false).0; Alive(t, c) && OkEndpoint(t, d)
  {
  }

  lemma TrapLiving(s: State, c: nat, call: Call, to: Target, msg: Option<Body>)
    requires Core(s) && LivingOnly(s) && Enabled(s, Trap(c, call, to, msg))
    ensures LivingOnly(DoSyncIpc(s, c, call, to, msg).0)
  {
    if Denial(s, c, call, to) == OK {
      match call
      case SENDREC => SendReceiveLiving(s, c, to.e, msg);
      case SEND => MiniSendLiving(s, c, to.e, msg, false);
      case SENDNB => MiniSendLiving(s, c, to.e, msg, true);
      case NOTIFY => KeepsLiving(s, MiniNotify(s, c, to.e).0);
      case RECEIVE =>
        ClearReplyKeeps(s, c);
        KeepsLiving(s, ClearReply(s, c));
        if to == Ep(c) { SelfTakes(s, c); KeepsLiving(ClearReply(s, c), TakeNotice(ClearReply(s, c), c, c)); }
        else { MiniReceiveLiving(ClearReply(s, c), c, to); }
    }
  }

  lemma StepLiving(s: State, step: Step)
    requires Core(s) && LivingOnly(s) && AsyncInv(s) && Enabled(s, step)
    ensures LivingOnly(Apply(s, step).0)
  {
    match step
    case Trap(c, call, to, msg) => TrapLiving(s, c, call, to, msg);
    case Senda(c, table) => KeepsLiving(s, MiniSenda(s, c, table).0);
    case OutOfQuantum(p, d, body) =>
      var t := SetStops(s, p, s.procs[p].stops + {NO_QUANTUM});
      FlagsLiving(s, p, t.procs[p]);
      MiniSendLiving(t, p, d, Some(body), false);
    case Signal(src, dst) => KeepsLiving(s, MiniNotify(s, src, dst).0);
    case CopyOut(p) => KeepsLiving(s, Delivered(s, p));
    case Halt(p, f) => FlagsLiving(s, p, SetStops(s, p, s.procs[p].stops + {f}).procs[p]);
    case Continue(p, f) => FlagsLiving(s, p, SetStops(s, p, s.procs[p].stops - {f}).procs[p]);
    case Exit(rc) =>
      ExitAsync(s, rc);
      ExitLiving(s, rc);
  }

  // ---------------------------------------------------------------- the books

  lemma SendReceiveBooks(s: State, c: nat, d: nat, msg: Option<Body>)
    requires Core(s) && Books(s) && c < s.Size() && d < s.Size() && c != d && Idle(s.procs[c])
    ensures Books(SendReceive(s, c, d, msg).0)
  {
    var t := SetReply(s, c);
    SetReplyKeeps(s, c);
    SameBooks(s, t);
    MiniSendBooks(t, c, d, msg, false);
    MiniSendKeeps(t, c, d, msg, false);
    var r := MiniSend(t, c, d, msg, false);
    if r.1 == OK {
      SecondHalf(s, c, d, msg);
      MiniReceiveBooks(r.0, c, Ep(d));
    }
  }

  lemma TrapBooks(s: State, c: nat, call: Call, to: Target, msg: Option<Body>)
    requires Core(s) && Books(s) && Enabled(s, Trap(c, call, to, msg))
    ensures Books(DoSyncIpc(s, c, call, to, msg).0)
  {
    if Denial(s, c, call, to) == OK {
      match call
      case SENDREC => SendReceiveBooks(s, c, to.e, msg);
      case SEND => MiniSendBooks(s, c, to.e, msg, false);
      case SENDNB => MiniSendBooks(s, c, to.e, msg, true);
      case NOTIFY => QuietBooks(s, MiniNotify(s, c, to.e).0);
      case RECEIVE =>
        ReceiveBooks(s, c, to);
    }
  }

  lemma ReceiveBooks(s: State, c: nat, to: Target)
    requires Core(s) && Books(s) && MayTrap(s, c) && (to.Ep? ==> 0 <= to.e < s.Size())
    requires to == Ep(c) ==> c in s.privs[c].notifyPending
    ensures Books(MiniReceive(ClearReply(s, c), c, to).0)
  {
    ClearReplyKeeps(s, c);
    SameBooks(s, ClearReply(s, c));
    if to == Ep(c) { SelfTakes(s, c); QuietBooks(ClearReply(s, c), TakeNotice(ClearReply(s, c), c, c)); }
    else { MiniReceiveBooks(ClearReply(s, c), c, to); }
  }

  lemma FlagsBooks(s: State, p: nat, q: Proc)
    requires Books(s) && p < s.Size() && SameButFlags(s.procs[p], q)
    ensures Books(s.With(p, q))
  {
    SameBooks(s, s.With(p, q));
  }

  lemma StepBooks(s: State, step: Step)
    requires Core(s) && Books(s) && Enabled(s, step)
    ensures Books(Apply(s, step).0)
  {
    match step
    case Trap(c, call, to, msg) => TrapBooks(s, c, call, to, msg);
    case Senda(c, table) => QuietBooks(s, MiniSenda(s, c, table).0);
    case OutOfQuantum(p, d, body) =>
      var t := SetStops(s, p, s.procs[p].stops + {NO_QUANTUM});
      FlagsCore(s, p, t.procs[p]);
      FlagsBooks(s, p, t.procs[p]);
      MiniSendBooks(t, p, d, Some(body), false);
    case Signal(src, dst) => QuietBooks(s, MiniNotify(s, src, dst).0);
    case CopyOut(p) => QuietBooks(s, Delivered(s, p));
    case Halt(p, f) => FlagsBooks(s, p, SetStops(s, p, s.procs[p].stops + {f}).procs[p]);
    case Continue(p, f) => FlagsBooks(s, p, SetStops(s, p, s.procs[p].stops - {f}).procs[p]);
    case Exit(rc) => ExitBooks(s, rc);
  }

  // ---------------------------------------------------------------- asynchronous sends

  lemma TrapAsync(s: State, c: nat, call: Call, to: Target, msg: Option<Body>)
    requires s.Shape() && AsyncInv(s) && Enabled(s, Trap(c, call, to, msg))
    ensures AsyncInv(DoSyncIpc(s, c, call, to, msg).0)
  {
    if Denial(s, c, call, to) == OK {
      match call
      case SENDREC => SendReceiveAsync(s, c, to.e, msg);
      case SEND => MiniSendAsync(s, c, to.e, msg, false);
      case SENDNB => MiniSendAsync(s, c, to.e, msg, true);
      case NOTIFY =>
        NotifySynchronous(s, c, to.e);
        SynchronousKeeps(s, MiniNotify(s, c, to.e).0);
      case RECEIVE =>
        SynchronousKeeps(s, ClearReply(s, c));
        MiniReceiveAsync(ClearReply(s, c), c, to);
    }
  }

  lemma MiniSendAsync(s: State, c: nat, d: nat, msg: Option<Body>, nonBlocking: bool)
    requires s.Shape() && AsyncInv(s) && c < s.Size() && d < s.Size()
    ensures AsyncInv(MiniSend(s, c, d, msg, nonBlocking).0)
  {
    MiniSendSynchronous(s, c, d, msg, nonBlocking);
    SynchronousKeeps(s, MiniSend(s, c, d, msg, nonBlocking).0);
  }

  lemma SendReceiveAsync(s: State, c: nat, d: nat, msg: Option<Body>)
    requires s.Shape() && AsyncInv(s) && c < s.Size() && d < s.Size()
    ensures AsyncInv(SendReceive(s, c, d, msg).0)
  {
    var t := SetReply(s, c);
    SynchronousKeeps(s, t);
    MiniSendAsync(t, c, d, msg, false);
    var r := MiniSend(t, c, d, msg, false);
    if r.1 == OK { MiniReceiveAsync(r.0, c, Ep(d)); }
  }

  lemma StepAsync(s: State, step: Step)
    requires s.Shape() && AsyncInv(s) && Enabled(s, step)
    ensures AsyncInv(Apply(s, step).0)
  {
    match step
    case Trap(c, call, to, msg) => TrapAsync(s, c, call, to, msg);
    case Senda(c, table) =>
      MiniSendaTruthful(s, c, table);
      MiniSendaPending(s, c, table);
    case OutOfQuantum(p, d, body) =>
      var t := SetStops(s, p, s.procs[p].stops + {NO_QUANTUM});
      SynchronousKeeps(s, t);
      MiniSendAsync(t, p, d, Some(body), false);
    case Signal(src, dst) =>
      NotifySynchronous(s, src, dst);
      SynchronousKeeps(s, MiniNotify(s, src, dst).0);
    case CopyOut(p) =>
      NotAsync(s.log, Copied(p, s.procs[p].delivered));
      SynchronousKeeps(s, Delivered(s, p));
    case Halt(p, f) => SynchronousKeeps(s, SetStops(s, p, s.procs[p].stops + {f}));
    case Continue(p, f) => SynchronousKeeps(s, SetStops(s, p, s.procs[p].stops - {f}));
    case Exit(rc) => ExitAsync(s, rc);
  }

  // ---------------------------------------------------------------- whole runs

  /** One kernel entry keeps the whole invariant, and returns. */
  lemma StepKeeps(s: State, step: Step)
    requires Inv(s) && Enabled(s, step)
    ensures Inv(Apply(s, step).0) && Apply(s, step).1 != Hung
  {
    StepCore(s, step);
    StepLiving(s, step);
    StepBooks(s, step);
    StepAsync(s, step);
    StepReturns(s, step);
  }

  lemma KillPending(s: State, rc: nat)
    requires s.Shape() && Pending(s) && rc < s.Size()
    ensures var t := ClearIpc(Kill(s, rc), rc); Pending(t) && !t.privs[rc].registered
  {
    SameBitsPending(s, ClearIpc(Kill(s, rc), rc));
  }

  /** No kernel entry loops for ever. */
  lemma StepReturns(s: State, step: Step)
    requires Core(s) && AsyncInv(s) && Enabled(s, step)
    ensures Apply(s, step).1 != Hung
  {
    match step
    case Trap(c, call, to, msg) => TrapCore(s, c, call, to, msg);
    case OutOfQuantum(p, d, body) =>
      var t := SetStops(s, p, s.procs[p].stops + {NO_QUANTUM});
      FlagsCore(s, p, t.procs[p]);
      MiniSendKeeps(t, p, d, Some(body), false);
    case Exit(rc) => ExitAsync(s, rc);
    case _ =>
  }

  /** Nobody waits, nothing is pending and nothing has happened. Rights are arbitrary, except
      that nobody may send to itself. */
  ghost predicate Initial(s: State) {
    && s.Sized() && s.log == []
    && (forall i :: 0 <= i < s.Size() ==> s.queues[i] == [] && InitialSlot(i, s.procs[i], s.privs[i]))
  }

  predicate InitialSlot(i: nat, p: Proc, v: Priv) {
    && !p.sending && !p.receiving && !p.deliverMsg
    && v.notifyPending == {} && v.asynPending == {} && !v.registered && v.table == [] == v.submitted
    && i !in v.ipcTo
  }

  lemma InitialCore(s: State)
    requires Initial(s)
    ensures Core(s)
  {
    NoEdges(Waits(s));
  }

  lemma InitialAsync(s: State)
    requires Initial(s)
    ensures AsyncInv(s)
  {
    forall src | 0 <= src < s.Size() ensures SlotTruthful(s, src) {}
  }

  lemma InitialInv(s: State)
    requires Initial(s)
    ensures Inv(s)
  {
    InitialCore(s);
    InitialAsync(s);
  }

  /** `states` is what `steps` make of an initial state, one after the other. */
  ghost predicate Run(states: seq<State>, steps: seq<Step>) {
    && |states| == |steps| + 1 && Initial(states[0])
    && forall k :: 0 <= k < |steps| ==> Leads(states[k], steps[k], states[k + 1])
  }

  ghost predicate Leads(s: State, step: Step, t: State) {
    s.Shape() && Enabled(s, step) && t == Apply(s, step).0
  }

  lemma LeadsKeeps(s: State, step: Step, t: State)
    requires Inv(s) && Leads(s, step, t)
    ensures Inv(t)
  {
    StepKeeps(s, step);
  }

  /** Every state of every run satisfies the invariant. */
  lemma {:induction false} RunsKeep(states: seq<State>, steps: seq<Step>, k: nat)
    requires Run(states, steps) && k < |states|
    ensures Inv(states[k])
  {
    if k == 0 {
      InitialInv(states[0]);
    } else {
      var j := k - 1;
      RunsKeep(states, steps, j);
      LeadsKeeps(states[j], steps[j], states[j + 1]);
    }
  }
}
