/** Asynchronous messages over any number of SENDAs: an entry that is handed in again and again is
    delivered at most once until its owner renews it. */
module IpcOnce {
  import opened IpcTypes
  import opened IpcSpec
  import opened IpcExit
  import opened IpcRun

  /** How many messages have reached buffers from entry `idx` of the tables of `x`, whichever SENDA
      handed them in. */
  function Sent(log: seq<Event>, x: nat, idx: nat): nat {
    if log == [] then 0
    else
      var e := log[|log| - 1];
      Sent(log[..|log| - 1], x, idx) + (if e.AsyncPlaced? && e.src == x && e.idx == idx then 1 else 0)
  }

  /** One while entry `idx` is still to be handled. */
  function Open(v: Priv, idx: nat): nat { if idx < |v.table| && v.table[idx].Unfinished() then 1 else 0 }

  /** What has been delivered from an entry, and what still may be, has not become more. */
  ghost predicate Spent(s: State, t: State, x: nat, idx: nat) {
    && s.Sized() && t.Sized() && x < s.Size() == t.Size()
    && Sent(t.log, x, idx) + Open(t.privs[x], idx) <= Sent(s.log, x, idx) + Open(s.privs[x], idx)
  }

  lemma SentAppends(log: seq<Event>, e: Event, x: nat, idx: nat)
    ensures Sent(log + [e], x, idx) == Sent(log, x, idx) + if e.AsyncPlaced? && e.src == x && e.idx == idx then 1 else 0
  {
    assert (log + [e])[..|log|] == log;
  }

  /** A step that delivers nothing asynchronous, and finishes entries at most. */
  lemma QuietSpent(s: State, t: State, x: nat, idx: nat)
    requires s.Sized() && t.Sized() && x < s.Size() == t.Size() && Open(t.privs[x], idx) <= Open(s.privs[x], idx)
    requires t.log == s.log || exists e: Event :: !e.AsyncPlaced? && t.log == s.log + [e]
    ensures Spent(s, t, x, idx)
  {
    if t.log != s.log {
      var e: Event :| !e.AsyncPlaced? && t.log == s.log + [e];
      SentAppends(s.log, e, x, idx);
    }
  }

  // ---------------------------------------------------------------- asynchronous sends

  lemma NotifySpent(s: State, src: nat, dst: int, x: nat, idx: nat)
    requires s.Sized() && src < s.Size() && x < s.Size()
    ensures Spent(s, MiniNotify(s, src, dst).0, x, idx)
  {
    var t := MiniNotify(s, src, dst).0;
    if t.log != s.log { assert t.log == s.log + [Notified(src, dst)]; }
    QuietSpent(s, t, x, idx);
  }

  lemma NotifyDoneSpent(s: State, src: nat, notice: bool, x: nat, idx: nat)
    requires s.Sized() && src < s.Size() && x < s.Size()
    ensures Spent(s, NotifyDone(s, src, notice), x, idx)
  {
    if notice { NotifySpent(s, ASYNCM, src, x, idx); }
  }

  lemma StoreSpent(s: State, src: nat, k: nat, r: Code, x: nat, idx: nat)
    requires s.Sized() && src < s.Size() && k < |s.privs[src].table| && x < s.Size()
    ensures Spent(s, StoreResult(s, src, k, r), x, idx)
  {
    QuietSpent(s, StoreResult(s, src, k, r), x, idx);
  }

  /** A delivery uses up the entry. */
  lemma PlaceAsyncSpent(s: State, src: nat, k: nat, d: nat, x: nat, idx: nat)
    requires s.Sized() && src < s.Size() && d < s.Size() && k < |s.privs[src].table| && x < s.Size()
    requires s.privs[src].table[k].Unfinished()
    ensures Spent(s, PlaceAsync(s, src, k, d), x, idx)
  {
    SentAppends(s.log, AsyncPlaced(src, d, s.privs[src].gen, k, s.privs[src].table[k].body), x, idx);
  }

  lemma SetAsynSpent(s: State, d: nat, src: nat, x: nat, idx: nat)
    requires s.Sized() && d < s.Size() && src < s.Size() && x < s.Size()
    ensures Spent(s, SetAsyn(s, d, src), x, idx) && Spent(s, UnsetAsyn(s, d, src), x, idx)
  {
  }

  lemma RegisterSpent(s: State, src: nat, on: bool, x: nat, idx: nat)
    requires s.Sized() && src < s.Size() && x < s.Size()
    ensures Spent(s, Register(s, src, on), x, idx)
  {
  }

  lemma SendaEntrySpent(a: Scan, c: nat, i: nat, x: nat, idx: nat)
    requires a.s.Sized() && c < a.s.Size() && i < |a.s.privs[c].table| && x < a.s.Size()
    ensures Spent(a.s, SendaEntry(a, c, i).s, x, idx)
  {
    var s, e := a.s, a.s.privs[c].table[i];
    if e.Unfinished() {
      var r := Refusal(s, c, e.dst);
      if r != OK {
        StoreSpent(s, c, i, r, x, idx);
      } else if WillReceive(s.procs[e.dst], c) && (!e.noReply || !s.procs[e.dst].replyPend) {
        PlaceAsyncSpent(s, c, i, e.dst, x, idx);
      } else {
        SetAsynSpent(s, e.dst, c, x, idx);
      }
    }
  }

  lemma {:induction false} SendaScanSpent(a: Scan, c: nat, i: nat, x: nat, idx: nat)
    requires a.s.Sized() && c < a.s.Size() && i <= |a.s.privs[c].table| && x < a.s.Size()
    ensures Spent(a.s, SendaScan(a, c, i).s, x, idx)
    decreases |a.s.privs[c].table| - i
  {
    if i < |a.s.privs[c].table| {
      SendaEntrySpent(a, c, i, x, idx);
      SendaScanSpent(SendaEntry(a, c, i), c, i + 1, x, idx);
    }
  }

  lemma FinishSendaSpent(a: Scan, c: nat, x: nat, idx: nat)
    requires a.s.Sized() && c < a.s.Size() && x < a.s.Size()
    ensures Spent(a.s, FinishSenda(a, c), x, idx)
  {
    NotifyDoneSpent(a.s, c, a.notice, x, idx);
    RegisterSpent(NotifyDone(a.s, c, a.notice), c, true, x, idx);
  }

  /** A SENDA renews entry `idx`: it hands it in to be delivered though it was finished, or not there. */
  predicate Renews(s: State, c: nat, table: seq<Entry>, idx: nat)
    requires s.Sized() && c < s.Size()
  {
    MiniSenda(s, c, table).1 == OK && idx < |table| && table[idx].Unfinished() && Open(s.privs[c], idx) == 0
  }

  lemma MiniSendaSpent(s: State, c: nat, table: seq<Entry>, x: nat, idx: nat)
    requires s.Sized() && c < s.Size() && x < s.Size() && (c == x ==> !Renews(s, c, table, idx))
    ensures Spent(s, MiniSenda(s, c, table).0, x, idx)
  {
    if MiniSenda(s, c, table).1 == OK {
      var a := Scan(Submit(s, c, table), false, false);
      assert Spent(s, a.s, x, idx);
      SendaScanSpent(a, c, 0, x, idx);
      FinishSendaSpent(SendaScan(a, c, 0), c, x, idx);
    }
  }

  lemma StillPendingSpent(s: State, src: nat, d: nat, notice: bool, x: nat, idx: nat)
    requires s.Sized() && src < s.Size() && d < s.Size() && x < s.Size()
    ensures Spent(s, StillPending(s, src, d, notice), x, idx)
  {
    NotifyDoneSpent(s, src, notice, x, idx);
    SetAsynSpent(NotifyDone(s, src, notice), d, src, x, idx);
  }

  lemma TryOneSpent(s: State, src: nat, d: nat, x: nat, idx: nat)
    requires s.Sized() && src < s.Size() && d < s.Size() && x < s.Size()
    ensures Spent(s, TryOne(s, src, d).0, x, idx)
  {
    var p := s.privs[src];
    var s1 := UnsetAsyn(s, d, src);
    SetAsynSpent(s, d, src, x, idx);
    if p.sysProc && p.registered && d in p.ipcTo {
      var k := StopAt(p.table, d, s.procs[d].replyPend, 0);
      if k == |p.table| {
        SetAsynSpent(s1, d, src, x, idx);
        RegisterSpent(s1, src, false, x, idx);
      } else if p.table[k].Bad() {
        StoreSpent(s1, src, k, EINVAL, x, idx);
        StillPendingSpent(StoreResult(s1, src, k, EINVAL), src, d, p.table[k].WantsNotice(EINVAL), x, idx);
      } else {
        PlaceAsyncSpent(s1, src, k, d, x, idx);
        StillPendingSpent(PlaceAsync(s1, src, k, d), src, d, p.table[k].WantsNotice(OK), x, idx);
      }
    }
  }

  lemma {:induction false} TryAsyncSpent(s: State, c: nat, i: nat, x: nat, idx: nat)
    requires s.Sized() && c < s.Size() && x < s.Size()
    ensures Spent(s, TryAsync(s, c, i).0, x, idx)
    decreases s.Size() - i
  {
    if i < s.Size() {
      if i in s.privs[c].asynPending {
        var r := TryOne(s, i, c);
        assert TryAsync(s, c, i).0 == if r.1 == OK then r.0 else TryAsync(r.0, c, i + 1).0;
        TryOneSpent(s, i, c, x, idx);
        if r.1 != OK { TryAsyncSpent(r.0, c, i + 1, x, idx); }
      } else {
        TryAsyncSpent(s, c, i + 1, x, idx);
      }
    }
  }

  lemma TryPendingSpent(s: State, c: nat, from: Target, x: nat, idx: nat)
    requires s.Sized() && c < s.Size() && (from.Ep? ==> 0 <= from.e < s.Size()) && x < s.Size()
    ensures Spent(s, TryPending(s, c, from).0, x, idx)
  {
    if from.Ep? { TryOneSpent(s, from.e, c, x, idx); } else { TryAsyncSpent(s, c, 0, x, idx); }
  }

  lemma StoreCancelSpent(s: State, src: nat, d: nat, x: nat, idx: nat)
    requires s.Sized() && src < s.Size() && x < s.Size()
    ensures Spent(s, StoreCancel(s, src, d), x, idx)
  {
    var v := s.privs[src];
    if x == src && idx < |v.table| { assert StoreCancel(s, src, d).privs[x].table[idx] == CancelEntry(v.table[idx], d); }
    QuietSpent(s, StoreCancel(s, src, d), x, idx);
  }

  lemma FinishCancelSpent(s: State, src: nat, d: nat, x: nat, idx: nat)
    requires s.Sized() && src < s.Size() && x < s.Size()
    ensures Spent(s, FinishCancel(s, src, d), x, idx)
  {
    var t, notice := StoreCancel(s, src, d), CancelNotice(s.privs[src].table, d);
    StoreCancelSpent(s, src, d, x, idx);
    NotifyDoneSpent(t, src, notice, x, idx);
    RegisterSpent(NotifyDone(t, src, notice), src, true, x, idx);
  }

  lemma CancelAsyncSpent(s: State, src: nat, d: nat, x: nat, idx: nat)
    requires s.Sized() && src < s.Size() && d < s.Size() && x < s.Size()
    ensures Spent(s, CancelAsync(s, src, d), x, idx)
  {
    var t := UnsetAsyn(Register(s, src, false), d, src);
    QuietSpent(s, t, x, idx);
    FinishCancelSpent(t, src, d, x, idx);
  }

  lemma {:induction false} CancelAllSpent(s: State, rc: nat, x: nat, idx: nat)
    requires s.Shape() && rc < s.Size() && x < s.Size()
    ensures Spent(s, CancelAll(s, rc).0, x, idx)
    decreases |s.privs[rc].asynPending|
  {
    var src := FirstFrom(s.privs[rc].asynPending, 0, s.Size());
    if src.Some? && s.privs[src.value].sysProc {
      var t := CancelAsync(s, src.value, rc);
      assert t.privs[rc].asynPending < s.privs[rc].asynPending;
      CancelAsyncSpent(s, src.value, rc, x, idx);
      CancelAllSpent(t, rc, x, idx);
    }
  }

  // ---------------------------------------------------------------- synchronous calls and exit

  lemma MiniSendSpent(s: State, c: nat, d: nat, msg: Option<Body>, nonBlocking: bool, x: nat, idx: nat)
    requires s.Shape() && c < s.Size() && d < s.Size() && x < s.Size()
    ensures Spent(s, MiniSend(s, c, d, msg, nonBlocking).0, x, idx)
  {
    if msg.Some? {
      SentAppends(s.log, Accepted(c, d, msg.value), x, idx);
      SentAppends(s.log + [Accepted(c, d, msg.value)], Placed(c, d, msg.value), x, idx);
    }
  }

  lemma ReceiveQueuedSpent(s: State, c: nat, from: Target, x: nat, idx: nat)
    requires s.Shape() && c < s.Size() && (from.Ep? ==> 0 <= from.e < s.Size()) && x < s.Size()
    ensures Spent(s, ReceiveQueued(s, c, from).0, x, idx)
  {
    var p := FirstSender(s.queues[c], from);
    if p.Some? { SentAppends(s.log, Placed(p.value, c, s.procs[p.value].sendMsg), x, idx); }
  }

  lemma MiniReceiveSpent(s: State, c: nat, from: Target, x: nat, idx: nat)
    requires s.Shape() && c < s.Size() && (from.Ep? ==> 0 <= from.e < s.Size()) && x < s.Size()
    ensures Spent(s, MiniReceive(s, c, from).0, x, idx)
  {
    var id := HasPending(s.privs[c].notifyPending, from, s.Size());
    if (from.Ep? && s.procs[from.e].noEndpoint) || s.procs[c].sending {
    } else if !s.procs[c].replyPend && id.Some? {
      SentAppends(s.log, Notified(id.value, c), x, idx);
    } else {
      var (t, r) := TryPending(s, c, from);
      TryPendingSpent(s, c, from, x, idx);
      if r != OK { ReceiveQueuedSpent(t, c, from, x, idx); }
    }
  }

  lemma TrapSpent(s: State, c: nat, call: Call, to: Target, msg: Option<Body>, x: nat, idx: nat)
    requires s.Shape() && c < s.Size() && x < s.Size()
    ensures Spent(s, DoSyncIpc(s, c, call, to, msg).0, x, idx)
  {
    if Denial(s, c, call, to) == OK {
      match call
      case SENDREC =>
        MiniSendSpent(SetReply(s, c), c, to.e, msg, false, x, idx);
        var t := MiniSend(SetReply(s, c), c, to.e, msg, false);
        if t.1 == OK { MiniReceiveSpent(t.0, c, to, x, idx); }
      case SEND => MiniSendSpent(s, c, to.e, msg, false, x, idx);
      case SENDNB => MiniSendSpent(s, c, to.e, msg, true, x, idx);
      case NOTIFY => NotifySpent(s, c, to.e, x, idx);
      case RECEIVE => MiniReceiveSpent(ClearReply(s, c), c, to, x, idx);
    }
  }

  lemma ClearIpcSpent(s: State, p: nat, x: nat, idx: nat)
    requires s.Shape() && p < s.Size() && x < s.Size()
    ensures Spent(s, ClearIpc(s, p), x, idx)
  {
    SentAppends(s.log, Cancelled(p, s.procs[p].sendTo, s.procs[p].sendMsg), x, idx);
  }

  lemma ClearRefSpent(s: State, rc: nat, i: nat, code: Code, x: nat, idx: nat)
    requires s.Shape() && rc < s.Size() && i < s.Size() && x < s.Size()
    ensures Spent(s, ClearRef(s, rc, i, code), x, idx)
  {
    if !s.procs[i].slotFree {
      ClearRefIs(s, rc, i, code);
      ClearIpcSpent(DropBits(s, rc, i, code), i, x, idx);
    }
  }

  lemma {:induction false} ClearRefsSpent(s: State, rc: nat, i: nat, code: Code, x: nat, idx: nat)
    requires s.Shape() && rc < s.Size() && i <= s.Size() && x < s.Size()
    ensures Spent(s, ClearRefs(s, rc, i, code), x, idx)
    decreases s.Size() - i
  {
    if i < s.Size() {
      ClearRefSpent(s, rc, i, code, x, idx);
      ClearRefsSpent(ClearRef(s, rc, i, code), rc, i + 1, code, x, idx);
    }
  }

  lemma ExitSpent(s: State, rc: nat, x: nat, idx: nat)
    requires s.Shape() && rc < s.Size() && x < s.Size()
    ensures Spent(s, ClearEndpoint(s, rc).0, x, idx)
  {
    var k := Kill(s, rc);
    var t := ClearIpc(k, rc);
    QuietSpent(s, k, x, idx);
    ClearIpcSpent(k, rc, x, idx);
    CancelAllSpent(t, rc, x, idx);
    ClearRefsSpent(CancelAll(t, rc).0, rc, 0, EDEADSRCDST, x, idx);
  }

  // ---------------------------------------------------------------- every step, every run

  /** The step is a SENDA of `x` that renews entry `idx`. */
  predicate RenewsBy(s: State, step: Step, x: nat, idx: nat)
    requires s.Sized() && Possible(s, step)
  {
    step.Senda? && step.c == x && Renews(s, x, step.table, idx)
  }

  lemma StepSpent(s: State, step: Step, x: nat, idx: nat)
    requires s.Shape() && Possible(s, step) && x < s.Size() && !RenewsBy(s, step, x, idx)
    ensures Spent(s, Apply(s, step).0, x, idx)
  {
    match step
    case Trap(c, call, to, msg) => TrapSpent(s, c, call, to, msg, x, idx);
    case Senda(c, table) => MiniSendaSpent(s, c, table, x, idx);
    case OutOfQuantum(p, d, body) =>
      MiniSendSpent(SetStops(s, p, s.procs[p].stops + {NO_QUANTUM}), p, d, Some(body), false, x, idx);
    case Signal(src, dst) => NotifySpent(s, src, dst, x, idx);
    case CopyOut(p) => SentAppends(s.log, Copied(p, s.procs[p].delivered), x, idx);
    case Halt(_, _) =>
    case Continue(_, _) =>
    case Exit(rc) => ExitSpent(s, rc, x, idx);
  }

  /** Nothing between points `i` and `j` of a run renews entry `idx` of `x`. */
  ghost predicate NotRenewed(states: seq<State>, steps: seq<Step>, i: nat, j: nat, x: nat, idx: nat) {
    forall k :: i <= k < j && k < |steps| && k < |states| && states[k].Shape() && Possible(states[k], steps[k]) ==>
      !RenewsBy(states[k], steps[k], x, idx)
  }

  /** In every run, from any point to any later one, over any number of SENDAs and of anything else: as long as
      its owner does not renew an entry, the entry is delivered at most once, and not at all if it was not
      to be delivered at the start. */
  lemma {:induction false} AtMostOnceOverall(states: seq<State>, steps: seq<Step>, i: nat, j: nat, x: nat, idx: nat)
    requires Run(states, steps) && i <= j < |states| && states[i].Sized() && x < states[i].Size()
    requires NotRenewed(states, steps, i, j, x, idx)
    ensures Spent(states[i], states[j], x, idx)
    ensures Sent(states[j].log, x, idx) <= Sent(states[i].log, x, idx) + Open(states[i].privs[x], idx)
    decreases j - i
  {
    if i < j {
      var h := j - 1;
      AtMostOnceOverall(states, steps, i, h, x, idx);
      assert Leads(states[h], steps[h], states[h + 1]);
      StepSpent(states[h], steps[h], x, idx);
    }
  }

  /** If the step is a SENDA of `x`, it hands in entry `idx` as it is. */
  predicate HandsBack(s: State, step: Step, x: nat, idx: nat) {
    step.Senda? && step.c == x ==>
      x < |s.privs| && idx < |step.table| && idx < |s.privs[x].table| && step.table[idx] == s.privs[x].table[idx]
  }

  /** So a table that is handed in again and again, with entry `idx` as the kernel left it, does not have the
      entry delivered twice, nor at all once it is finished. */
  lemma ResubmittedOnce(states: seq<State>, steps: seq<Step>, i: nat, j: nat, x: nat, idx: nat)
    requires Run(states, steps) && i <= j < |states| && states[i].Sized() && x < states[i].Size()
    requires forall k :: i <= k < j ==> HandsBack(states[k], steps[k], x, idx)
    ensures Sent(states[j].log, x, idx) <= Sent(states[i].log, x, idx) + Open(states[i].privs[x], idx)
  {
    forall k | i <= k < j && k < |steps| && k < |states| && states[k].Shape() && Possible(states[k], steps[k])
      ensures !RenewsBy(states[k], steps[k], x, idx)
    {
      assert HandsBack(states[k], steps[k], x, idx);
    }
    AtMostOnceOverall(states, steps, i, j, x, idx);
  }
}
