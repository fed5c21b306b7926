/** Message buffers: no message is put in a buffer before the one in it has been copied out, so what
    a process has received is what was put in its buffer, in order and complete. */
module IpcBoxes {
  import opened IpcTypes
  import opened IpcSpec
  import opened IpcInv
  import opened IpcCalls
  import opened IpcExit
  import opened IpcRun

  /** `e` does not overwrite what is in a buffer, nor copy out what is not there. */
  predicate Fits(log: seq<Event>, e: Event) {
    && (e.Arrives() ==> Box(log, e.dst).None?)
    && (e.Copied? ==> Box(log, e.dst) == Some(e.msg))
  }

  ghost predicate Orderly(log: seq<Event>) {
    log == [] || (Orderly(log[..|log| - 1]) && Fits(log[..|log| - 1], log[|log| - 1]))
  }

  /** The messages put in the buffer of `d`. */
  function Arrived(log: seq<Event>, d: nat): seq<Message> {
    if log == [] then []
    else
      var e := log[|log| - 1];
      Arrived(log[..|log| - 1], d) + (if e.Arrives() && e.dst == d then [e.Mail()] else [])
  }

  /** The messages copied out of it. */
  function Received(log: seq<Event>, d: nat): seq<Message> {
    if log == [] then []
    else
      var e := log[|log| - 1];
      Received(log[..|log| - 1], d) + (if e.Copied? && e.dst == d then [e.msg] else [])
  }

  /** In an orderly history everything that arrived has been copied out, but for what is in the buffer. */
  lemma {:induction false} NothingOverwritten(log: seq<Event>, d: nat)
    requires Orderly(log)
    ensures Arrived(log, d) == Received(log, d) + match Box(log, d) { case None => [] case Some(m) => [m] }
  {
    if log != [] { NothingOverwritten(log[..|log| - 1], d); }
  }

  ghost predicate Boxed(s: State) { Arrivals(s) && Orderly(s.log) }

  lemma NoteOrderly(log: seq<Event>, e: Event)
    requires Orderly(log) && Fits(log, e)
    ensures Orderly(log + [e])
  {
    assert (log + [e])[..|log|] == log;
  }

  lemma PlaceBoxed(s: State, e: Event)
    requires s.Sized() && Boxed(s) && e.Arrives() && e.dst < s.Size() && !s.procs[e.dst].deliverMsg
    ensures Boxed(Place(s, e))
  {
    NoteOrderly(s.log, e);
  }

  /** A process that waits has an empty buffer. */
  lemma EmptyBox(s: State, d: nat)
    requires s.Sized() && AllLocal(s) && d < s.Size() && s.procs[d].receiving
    ensures !s.procs[d].deliverMsg
  {
    assert Local(d, s.procs[d], s.privs[d]);
  }

  lemma SameBoxed(s: State, t: State)
    requires Boxed(s) && Keeps(s, t) && t.log == s.log
    ensures Boxed(t)
  {
  }

  // ---------------------------------------------------------------- notifications and asynchronous sends

  lemma NotifyBoxed(s: State, src: nat, dst: int)
    requires s.Sized() && AllLocal(s) && Boxed(s) && src < s.Size()
    ensures Boxed(MiniNotify(s, src, dst).0)
  {
    if OkEndpoint(s, dst) && WillReceive(s.procs[dst], src) && !s.procs[dst].replyPend {
      EmptyBox(s, dst);
      PlaceBoxed(s, Notified(src, dst));
    } else {
      SameBoxed(s, MiniNotify(s, src, dst).0);
    }
  }

  lemma NotifyDoneBoxed(s: State, src: nat, notice: bool)
    requires s.Sized() && AllLocal(s) && Boxed(s) && src < s.Size()
    ensures Boxed(NotifyDone(s, src, notice))
  {
    if notice { NotifyBoxed(s, ASYNCM, src); }
  }

  lemma PlaceAsyncBoxed(s: State, src: nat, k: nat, d: nat)
    requires s.Sized() && Boxed(s) && src < s.Size() && d < s.Size() && k < |s.privs[src].table| && !s.procs[d].deliverMsg
    ensures Boxed(PlaceAsync(s, src, k, d))
  {
    var e := AsyncPlaced(src, d, s.privs[src].gen, k, s.privs[src].table[k].body);
    PlaceBoxed(s, e);
    SameBoxed(Place(s, e), PlaceAsync(s, src, k, d));
  }

  lemma SendaEntryBoxed(a: Scan, c: nat, i: nat)
    requires a.s.Sized() && AllLocal(a.s) && Boxed(a.s) && c < a.s.Size() && i < |a.s.privs[c].table|
    ensures Boxed(SendaEntry(a, c, i).s)
  {
    var s := a.s;
    var e := s.privs[c].table[i];
    if e.Unfinished() {
      if Refusal(s, c, e.dst) == OK && WillReceive(s.procs[e.dst], c) && (!e.noReply || !s.procs[e.dst].replyPend) {
        EmptyBox(s, e.dst);
        PlaceAsyncBoxed(s, c, i, e.dst);
      } else {
        SameBoxed(s, SendaEntry(a, c, i).s);
      }
    }
  }

  lemma {:induction false} SendaScanBoxed(a: Scan, c: nat, i: nat)
    requires a.s.Sized() && AllLocal(a.s) && Boxed(a.s) && c < a.s.Size() && i <= |a.s.privs[c].table|
    ensures Boxed(SendaScan(a, c, i).s)
    decreases |a.s.privs[c].table| - i
  {
    if i < |a.s.privs[c].table| {
      SendaEntryBoxed(a, c, i);
      SendaEntryLocal(a, c, i);
      SendaScanBoxed(SendaEntry(a, c, i), c, i + 1);
    }
  }

  lemma FinishSendaBoxed(a: Scan, c: nat)
    requires a.s.Sized() && AllLocal(a.s) && Boxed(a.s) && c < a.s.Size()
    ensures Boxed(FinishSenda(a, c))
  {
    NotifyDoneBoxed(a.s, c, a.notice);
    SameBoxed(NotifyDone(a.s, c, a.notice), FinishSenda(a, c));
  }

  lemma MiniSendaBoxed(s: State, c: nat, table: seq<Entry>)
    requires s.Sized() && AllLocal(s) && Boxed(s) && c < s.Size()
    ensures Boxed(MiniSenda(s, c, table).0)
  {
    var a := Scan(Submit(s, c, table), false, false);
    SameBoxed(s, a.s);
    LocalAt(s, a.s, c);
    SendaScanBoxed(a, c, 0);
    SendaScanLocal(a, c, 0);
    FinishSendaBoxed(SendaScan(a, c, 0), c);
  }

  lemma StillPendingBoxed(s: State, src: nat, d: nat, notice: bool)
    requires s.Sized() && AllLocal(s) && Boxed(s) && src < s.Size() && d < s.Size()
    ensures Boxed(StillPending(s, src, d, notice))
  {
    NotifyDoneBoxed(s, src, notice);
    SameBoxed(NotifyDone(s, src, notice), StillPending(s, src, d, notice));
  }

  lemma TryOneBoxed(s: State, src: nat, c: nat)
    requires s.Sized() && AllLocal(s) && Boxed(s) && src < s.Size() && c < s.Size() && src != c && Idle(s.procs[c])
    ensures Boxed(TryOne(s, src, c).0)
  {
    var p := s.privs[src];
    var s1 := UnsetAsyn(s, c, src);
    SameBoxed(s, s1);
    UnsetAsynLocal(s, c, src);
    if p.sysProc && p.registered && c in p.ipcTo {
      var k := StopAt(p.table, c, s.procs[c].replyPend, 0);
      if k == |p.table| {
        SameBoxed(s, TryOne(s, src, c).0);
      } else if p.table[k].Bad() {
        StoreLocal(s1, src, k, EINVAL);
        SameBoxed(s1, StoreResult(s1, src, k, EINVAL));
        StillPendingBoxed(StoreResult(s1, src, k, EINVAL), src, c, p.table[k].WantsNotice(EINVAL));
      } else {
        PlaceAsyncLocal(s1, src, k, c);
        PlaceAsyncBoxed(s1, src, k, c);
        StillPendingBoxed(PlaceAsync(s1, src, k, c), src, c, p.table[k].WantsNotice(OK));
      }
    }
  }

  lemma {:induction false} TryAsyncBoxed(s: State, c: nat, i: nat)
    requires s.Sized() && AllLocal(s) && Boxed(s) && c < s.Size() && Idle(s.procs[c])
    ensures Boxed(TryAsync(s, c, i).0)
    decreases s.Size() - i
  {
    if i < s.Size() {
      if i in s.privs[c].asynPending {
        var r := TryOne(s, i, c);
        assert TryAsync(s, c, i).0 == if r.1 == OK then r.0 else TryAsync(r.0, c, i + 1).0;
        assert Local(c, s.procs[c], s.privs[c]);
        TryOneBoxed(s, i, c);
        TryOneLocal(s, i, c);
        TryOneFrame(s, i, c);
        if r.1 != OK { TryAsyncBoxed(r.0, c, i + 1); }
      } else {
        TryAsyncBoxed(s, c, i + 1);
      }
    }
  }

  lemma FinishCancelBoxed(s: State, src: nat, d: nat)
    requires s.Sized() && AllLocal(s) && Boxed(s) && src < s.Size()
    ensures Boxed(FinishCancel(s, src, d))
  {
    var t := StoreCancel(s, src, d);
    var notice := CancelNotice(s.privs[src].table, d);
    LocalAt(s, t, src);
    SameBoxed(s, t);
    NotifyDoneBoxed(t, src, notice);
    SameBoxed(NotifyDone(t, src, notice), FinishCancel(s, src, d));
  }

  lemma CancelAsyncBoxed(s: State, src: nat, d: nat)
    requires s.Sized() && AllLocal(s) && Boxed(s) && src < s.Size() && d < s.Size()
    ensures Boxed(CancelAsync(s, src, d))
  {
    var t := UnsetAsyn(Register(s, src, false), d, src);
    RegisterLocal(s, src, false);
    UnsetAsynLocal(Register(s, src, false), d, src);
    SameBoxed(s, t);
    FinishCancelBoxed(t, src, d);
  }

  lemma {:induction false} CancelAllBoxed(s: State, rc: nat)
    requires Core(s) && Boxed(s) && rc < s.Size()
    ensures Boxed(CancelAll(s, rc).0)
    decreases |s.privs[rc].asynPending|
  {
    var src := FirstFrom(s.privs[rc].asynPending, 0, s.Size());
    if src.Some? && s.privs[src.value].sysProc {
      var t := CancelAsync(s, src.value, rc);
      CancelAsyncKeeps(s, src.value, rc);
      CancelAsyncBoxed(s, src.value, rc);
      assert t.privs[rc].asynPending < s.privs[rc].asynPending;
      CancelAllBoxed(t, rc);
    }
  }

  // ---------------------------------------------------------------- sending and receiving

  lemma MiniSendBoxed(s: State, c: nat, d: nat, msg: Option<Body>, nonBlocking: bool)
    requires s.Shape() && AllLocal(s) && Boxed(s) && c < s.Size() && d < s.Size()
    ensures Boxed(MiniSend(s, c, d, msg, nonBlocking).0)
  {
    if msg.Some? {
      NoteOrderly(s.log, Accepted(c, d, msg.value));
      if WillReceive(s.procs[d], c) {
        var u := s.Note([Accepted(c, d, msg.value)]);
        NoArrival(s, Accepted(c, d, msg.value));
        EmptyBox(s, d);
        PlaceBoxed(u, Placed(c, d, msg.value));
      }
    }
  }

  lemma TakeQueuedBoxed(s: State, c: nat, p: nat)
    requires s.Sized() && Boxed(s) && c < s.Size() && p < s.Size() && p != c && !s.procs[c].deliverMsg
    ensures Boxed(TakeQueued(s, c, p))
  {
    PlaceBoxed(Unqueue(s, p, c), Placed(p, c, s.procs[p].sendMsg));
  }

  lemma TakeNoticeBoxed(s: State, c: nat, id: nat)
    requires s.Sized() && Boxed(s) && c < s.Size() && !s.procs[c].deliverMsg
    ensures Boxed(TakeNotice(s, c, id))
  {
    PlaceBoxed(s.WithPriv(c, s.privs[c].(notifyPending := s.privs[c].notifyPending - {id})), Notified(id, c));
  }

  lemma ReceiveQueuedBoxed(s: State, c: nat, from: Target)
    requires s.Shape() && Queues(s) && Boxed(s) && c < s.Size() && (from.Ep? ==> 0 <= from.e < s.Size())
    requires !s.procs[c].sending && !s.procs[c].deliverMsg
    ensures Boxed(ReceiveQueued(s, c, from).0)
  {
    var p := FirstSender(s.queues[c], from);
    if p.Some? { TakeQueuedBoxed(s, c, p.value); }
  }

  lemma TryPendingBoxed(s: State, c: nat, from: Target)
    requires Core(s) && Boxed(s) && c < s.Size() && (from.Ep? ==> 0 <= from.e < s.Size()) && Idle(s.procs[c]) && from != Ep(c)
    ensures Boxed(TryPending(s, c, from).0)
  {
    if HasPending(s.privs[c].asynPending, from, s.Size()).Some? {
      if from.Ep? { TryOneBoxed(s, from.e, c); } else { TryAsyncBoxed(s, c, 0); }
    }
  }

  lemma MiniReceiveBoxed(s: State, c: nat, from: Target)
    requires Core(s) && Boxed(s) && c < s.Size() && MayReceive(s.procs[c], c, from) && (from.Ep? ==> 0 <= from.e < s.Size())
    ensures Boxed(MiniReceive(s, c, from).0)
  {
    var id := HasPending(s.privs[c].notifyPending, from, s.Size());
    if (from.Ep? && s.procs[from.e].noEndpoint) || s.procs[c].sending {
    } else if !s.procs[c].replyPend && id.Some? {
      TakeNoticeBoxed(s, c, id.value);
    } else {
      var (t, r) := TryPending(s, c, from);
      TryPendingBoxed(s, c, from);
      TryPendingKeeps(s, c, from);
      if r == OK { SameBoxed(t, ClearReply(t, c)); } else { ReceiveQueuedBoxed(t, c, from); }
    }
  }

  lemma SendReceiveBoxed(s: State, c: nat, d: nat, msg: Option<Body>)
    requires Core(s) && Boxed(s) && c < s.Size() && d < s.Size() && c != d && Idle(s.procs[c])
    ensures Boxed(SendReceive(s, c, d, msg).0)
  {
    var t := SetReply(s, c);
    SetReplyKeeps(s, c);
    SameBoxed(s, t);
    MiniSendBoxed(t, c, d, msg, false);
    MiniSendKeeps(t, c, d, msg, false);
    var r := MiniSend(t, c, d, msg, false);
    if r.1 == OK {
      SecondHalf(s, c, d, msg);
      MiniReceiveBoxed(r.0, c, Ep(d));
    }
  }

  lemma TrapBoxed(s: State, c: nat, call: Call, to: Target, msg: Option<Body>)
    requires Core(s) && Boxed(s) && Enabled(s, Trap(c, call, to, msg))
    ensures Boxed(DoSyncIpc(s, c, call, to, msg).0)
  {
    if Denial(s, c, call, to) == OK {
      assert Local(c, s.procs[c], s.privs[c]);
      match call
      case SENDREC => SendReceiveBoxed(s, c, to.e, msg);
      case SEND => MiniSendBoxed(s, c, to.e, msg, false);
      case SENDNB => MiniSendBoxed(s, c, to.e, msg, true);
      case NOTIFY => NotifyBoxed(s, c, to.e);
      case RECEIVE =>
        ClearReplyKeeps(s, c);
        SameBoxed(s, ClearReply(s, c));
        if to == Ep(c) { SelfTakes(s, c); TakeNoticeBoxed(ClearReply(s, c), c, c); }
        else { MiniReceiveBoxed(ClearReply(s, c), c, to); }
    }
  }

  // ---------------------------------------------------------------- exit

  lemma ClearIpcBoxed(s: State, p: nat)
    requires s.Shape() && Boxed(s) && p < s.Size()
    ensures Boxed(ClearIpc(s, p))
  {
    if s.procs[p].sending { NoteOrderly(s.log, Cancelled(p, s.procs[p].sendTo, s.procs[p].sendMsg)); }
  }

  lemma ClearRefBoxed(s: State, rc: nat, i: nat, code: Code)
    requires s.Shape() && Boxed(s) && rc < s.Size() && i < s.Size()
    ensures Boxed(ClearRef(s, rc, i, code))
  {
    if !s.procs[i].slotFree {
      ClearRefIs(s, rc, i, code);
      ClearIpcBoxed(DropBits(s, rc, i, code), i);
    }
  }

  lemma {:induction false} ClearRefsBoxed(s: State, rc: nat, i: nat, code: Code)
    requires s.Shape() && Boxed(s) && rc < s.Size() && i <= s.Size()
    ensures Boxed(ClearRefs(s, rc, i, code))
    decreases s.Size() - i
  {
    if i < s.Size() {
      ClearRefBoxed(s, rc, i, code);
      ClearRefsBoxed(ClearRef(s, rc, i, code), rc, i + 1, code);
    }
  }

  lemma ExitBoxed(s: State, rc: nat)
    requires Core(s) && Boxed(s) && rc < s.Size()
    ensures Boxed(ClearEndpoint(s, rc).0)
  {
    var k := Kill(s, rc);
    KillKeeps(s, rc);
    ClearIpcBoxed(k, rc);
    ClearIpcKeeps(k, rc);
    var t := ClearIpc(k, rc);
    CancelAllBoxed(t, rc);
    ClearRefsBoxed(CancelAll(t, rc).0, rc, 0, EDEADSRCDST);
  }

  // ---------------------------------------------------------------- every step, every run

  lemma CopyBoxed(s: State, p: nat)
    requires s.Sized() && Boxed(s) && p < s.Size() && s.procs[p].deliverMsg
    ensures Boxed(Delivered(s, p))
  {
    NoteOrderly(s.log, Copied(p, s.procs[p].delivered));
  }

  lemma StepBoxed(s: State, step: Step)
    requires Core(s) && Boxed(s) && Enabled(s, step)
    ensures Boxed(Apply(s, step).0)
  {
    match step
    case Trap(c, call, to, msg) => TrapBoxed(s, c, call, to, msg);
    case Senda(c, table) => MiniSendaBoxed(s, c, table);
    case OutOfQuantum(p, d, body) =>
      var t := SetStops(s, p, s.procs[p].stops + {NO_QUANTUM});
      FlagsCore(s, p, t.procs[p]);
      MiniSendBoxed(t, p, d, Some(body), false);
    case Signal(src, dst) => NotifyBoxed(s, src, dst);
    case CopyOut(p) => CopyBoxed(s, p);
    case Halt(_, _) =>
    case Continue(_, _) =>
    case Exit(rc) => ExitBoxed(s, rc);
  }

  lemma {:induction false} RunsOrderly(states: seq<State>, steps: seq<Step>, k: nat)
    requires Run(states, steps) && k < |states|
    ensures Boxed(states[k])
  {
    RunsKeep(states, steps, k);
    if k > 0 {
      var j := k - 1;
      RunsOrderly(states, steps, j);
      RunsKeep(states, steps, j);
      assert Leads(states[j], steps[j], states[j + 1]);
      StepBoxed(states[j], steps[j]);
    }
  }

  /** At every point of every run, the messages put in the buffer of a process are those copied out of it,
      in order, followed by the one in it, if any: none is overwritten. */
  lemma NoMessageOverwritten(states: seq<State>, steps: seq<Step>, k: nat, p: nat)
    requires Run(states, steps) && k < |states| && p < states[k].Size()
    ensures var s := states[k];
      Arrived(s.log, p) == Received(s.log, p) + if s.procs[p].deliverMsg then [s.procs[p].delivered] else []
  {
    RunsOrderly(states, steps, k);
    NothingOverwritten(states[k].log, p);
  }
}
