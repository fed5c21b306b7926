/** Each kernel entry keeps the books of messages and of asynchronous sends. */
module IpcSteps {
  import opened IpcTypes
  import opened Lists
  import opened IpcSpec
  import opened IpcInv
  import opened IpcCalls
  import opened IpcExit
  import opened IpcHistory
  import opened IpcAsync
  import opened IpcPending

  // ---------------------------------------------------------------- sending and receiving

  lemma MiniSendBooks(s: State, c: nat, d: nat, msg: Option<Body>, nonBlocking: bool)
    requires s.Shape() && Queues(s) && Books(s) && c < s.Size() && d < s.Size() && !s.procs[c].sending
    ensures Books(MiniSend(s, c, d, msg, nonBlocking).0)
  {
    if msg.Some? {
      DirectBooks(s, c, d, msg.value);
      BlockSendBooks(s, c, d, msg.value);
    }
  }

  lemma ReceiveBlockingBooks(s: State, c: nat, from: Target)
    requires s.Sized() && Books(s) && c < s.Size() && (from.Ep? ==> 0 <= from.e < s.Size())
    ensures Books(ReceiveBlocking(s, c, from).0)
  {
    SameBooks(s, BlockReceive(s, c, from));
  }

  lemma ReceiveQueuedBooks(s: State, c: nat, from: Target)
    requires s.Shape() && Queues(s) && Books(s) && c < s.Size() && (from.Ep? ==> 0 <= from.e < s.Size())
    requires !s.procs[c].sending
    ensures Books(ReceiveQueued(s, c, from).0)
  {
    var p := FirstSender(s.queues[c], from);
    if p.Some? { TakeBooks(s, c, p.value); } else { ReceiveBlockingBooks(s, c, from); }
  }

  /** What mini_receive does after its asynchronous attempt `a`. */
  lemma AfterPendingBooks(a: (State, Code), c: nat, from: Target)
    requires a.0.Shape() && Queues(a.0) && Books(a.0) && c < a.0.Size() && (from.Ep? ==> 0 <= from.e < a.0.Size())
    requires !a.0.procs[c].sending
    ensures Books(if a.1 == OK then ClearReply(a.0, c) else ReceiveQueued(a.0, c, from).0)
  {
    if a.1 == OK { QuietBooks(a.0, ClearReply(a.0, c)); } else { ReceiveQueuedBooks(a.0, c, from); }
  }

  lemma MiniReceiveBooks(s: State, c: nat, from: Target)
    requires Core(s) && Books(s) && c < s.Size() && (from.Ep? ==> 0 <= from.e < s.Size())
    requires MayReceive(s.procs[c], c, from)
    ensures Books(MiniReceive(s, c, from).0)
  {
    if from.Ep? && s.procs[from.e].noEndpoint {
    } else if s.procs[c].sending {
      ReceiveBlockingBooks(s, c, from);
    } else {
      var id := HasPending(s.privs[c].notifyPending, from, s.Size());
      if !s.procs[c].replyPend && id.Some? {
        QuietBooks(s, TakeNotice(s, c, id.value));
      } else {
        TryPendingKeeps(s, c, from);
        QuietBooks(s, TryPending(s, c, from).0);
        AfterPendingBooks(TryPending(s, c, from), c, from);
      }
    }
  }

  // ---------------------------------------------------------------- exit

  lemma ClearIpcBooks(s: State, p: nat)
    requires s.Shape() && Books(s) && p < s.Size()
    ensures Books(ClearIpc(s, p))
  {
    var v := s.procs[p];
    if v.sending { UnqueueBooks(s, p, v.sendTo, Cancelled(p, v.sendTo, v.sendMsg)); }
    SameBooks(StopSending(s, p), ClearIpc(s, p));
  }

  lemma ClearRefBooks(s: State, rc: nat, i: nat, code: Code)
    requires s.Shape() && Books(s) && rc < s.Size() && i < s.Size()
    ensures Books(ClearRef(s, rc, i, code))
  {
    if !s.procs[i].slotFree {
      ClearRefIs(s, rc, i, code);
      SameBooks(s, DropBits(s, rc, i, code));
      ClearIpcBooks(DropBits(s, rc, i, code), i);
    }
  }

  lemma {:induction false} ClearRefsBooks(s: State, rc: nat, i: nat, code: Code)
    requires s.Shape() && Books(s) && rc < s.Size() && i <= s.Size()
    ensures Books(ClearRefs(s, rc, i, code))
    decreases s.Size() - i
  {
    if i < s.Size() {
      ClearRefBooks(s, rc, i, code);
      ClearRefsBooks(ClearRef(s, rc, i, code), rc, i + 1, code);
    }
  }

  lemma ExitBooks(s: State, rc: nat)
    requires s.Shape() && Books(s) && rc < s.Size()
    ensures Books(ClearEndpoint(s, rc).0)
  {
    var t := ClearIpc(Kill(s, rc), rc);
    SameBooks(s, Kill(s, rc));
    ClearIpcBooks(Kill(s, rc), rc);
    QuietBooks(t, CancelAll(t, rc).0);
    ClearRefsBooks(CancelAll(t, rc).0, rc, 0, EDEADSRCDST);
  }

  // ---------------------------------------------------------------- asynchronous tables

  /** Nothing asynchronous happens: same tables, same bits, no delivery. */
  ghost predicate Synchronous(s: State, t: State) {
    && s.Sized() && t.Sized() && NoAsync(s, t)
    && forall i :: 0 <= i < s.Size() ==> t.privs[i] == s.privs[i].(notifyPending := t.privs[i].notifyPending)
  }

  ghost predicate AsyncInv(s: State) { s.Sized() && AllTruthful(s) && Pending(s) }

  lemma SynchronousKeeps(s: State, t: State)
    requires AsyncInv(s) && Synchronous(s, t)
    ensures AsyncInv(t)
  {
    NoAsyncTruthful(s, t);
    SameBitsPending(s, t);
  }

  lemma MiniSendSynchronous(s: State, c: nat, d: nat, msg: Option<Body>, nonBlocking: bool)
    requires s.Shape() && c < s.Size() && d < s.Size()
    ensures Synchronous(s, MiniSend(s, c, d, msg, nonBlocking).0)
  {
    if msg.Some? {
      NotAsync(s.log, Accepted(c, d, msg.value));
      NotAsync(s.log + [Accepted(c, d, msg.value)], Placed(c, d, msg.value));
    }
  }

  lemma ReceiveQueuedSynchronous(s: State, c: nat, from: Target)
    requires s.Shape() && c < s.Size() && (from.Ep? ==> 0 <= from.e < s.Size())
    ensures Synchronous(s, ReceiveQueued(s, c, from).0)
  {
    var p := FirstSender(s.queues[c], from);
    if p.Some? { NotAsync(s.log, Placed(p.value, c, s.procs[p.value].sendMsg)); }
  }

  lemma ReceiveQueuedAsync(s: State, c: nat, from: Target)
    requires s.Shape() && AsyncInv(s) && c < s.Size() && (from.Ep? ==> 0 <= from.e < s.Size())
    ensures AsyncInv(ReceiveQueued(s, c, from).0)
  {
    ReceiveQueuedSynchronous(s, c, from);
    SynchronousKeeps(s, ReceiveQueued(s, c, from).0);
  }

  lemma TakeNoticeAsync(s: State, c: nat, id: nat)
    requires AsyncInv(s) && c < s.Size()
    ensures AsyncInv(TakeNotice(s, c, id))
  {
    NotAsync(s.log, Notified(id, c));
    SynchronousKeeps(s, TakeNotice(s, c, id));
  }

  lemma NotifySynchronous(s: State, src: nat, dst: int)
    requires s.Sized() && src < s.Size()
    ensures Synchronous(s, MiniNotify(s, src, dst).0)
  {
    NotifyNoAsync(s, src, dst);
  }

  lemma TryPendingAsync(s: State, c: nat, from: Target)
    requires AsyncInv(s) && c < s.Size() && (from.Ep? ==> 0 <= from.e < s.Size())
    ensures AsyncInv(TryPending(s, c, from).0)
  {
    if from.Ep? {
      TryOneTruthful(s, from.e, c);
      TryOnePending(s, from.e, c);
    } else {
      TryAsyncTruthful(s, c, 0);
      TryAsyncPending(s, c, 0);
    }
  }

  lemma MiniReceiveAsync(s: State, c: nat, from: Target)
    requires s.Shape() && AsyncInv(s) && c < s.Size() && (from.Ep? ==> 0 <= from.e < s.Size())
    ensures AsyncInv(MiniReceive(s, c, from).0)
  {
    if from.Ep? && s.procs[from.e].noEndpoint {
    } else if s.procs[c].sending {
      SynchronousKeeps(s, ReceiveBlocking(s, c, from).0);
    } else {
      var id := HasPending(s.privs[c].notifyPending, from, s.Size());
      if !s.procs[c].replyPend && id.Some? {
        TakeNoticeAsync(s, c, id.value);
      } else {
        AfterNoticeAsync(s, c, from);
      }
    }
  }

  lemma AfterNoticeAsync(s: State, c: nat, from: Target)
    requires s.Shape() && AsyncInv(s) && c < s.Size() && (from.Ep? ==> 0 <= from.e < s.Size())
    ensures var (t, r) := TryPending(s, c, from); AsyncInv(if r == OK then ClearReply(t, c) else ReceiveQueued(t, c, from).0)
  {
    TryPendingAsync(s, c, from);
    var (t, r) := TryPending(s, c, from);
    if r == OK { SynchronousKeeps(t, ClearReply(t, c)); } else { ReceiveQueuedAsync(t, c, from); }
  }

  lemma ClearIpcSynchronous(s: State, p: nat)
    requires s.Shape() && p < s.Size()
    ensures Synchronous(s, ClearIpc(s, p))
  {
    NotAsync(s.log, Cancelled(p, s.procs[p].sendTo, s.procs[p].sendMsg));
  }

  lemma ClearRefAsync(s: State, rc: nat, i: nat, code: Code)
    requires s.Shape() && AsyncInv(s) && rc < s.Size() && i < s.Size() && !s.privs[rc].registered
    ensures var t := ClearRef(s, rc, i, code); AsyncInv(t) && !t.privs[rc].registered
  {
    if !s.procs[i].slotFree {
      var t := DropBits(s, rc, i, code);
      ClearRefIs(s, rc, i, code);
      NoAsyncTruthful(s, t);
      BitChanged(s, t, rc, i);
      ClearIpcSynchronous(t, i);
      SynchronousKeeps(t, ClearIpc(t, i));
    }
  }

  lemma {:induction false} ClearRefsAsync(s: State, rc: nat, i: nat, code: Code)
    requires s.Shape() && AsyncInv(s) && rc < s.Size() && i <= s.Size() && !s.privs[rc].registered
    ensures AsyncInv(ClearRefs(s, rc, i, code))
    decreases s.Size() - i
  {
    if i < s.Size() {
      ClearRefAsync(s, rc, i, code);
      ClearRefsAsync(ClearRef(s, rc, i, code), rc, i + 1, code);
    }
  }

  /** The cancel loop ends: every pending bit belongs to a system process, so each round clears
      one. */
  lemma {:induction false} CancelAllAsync(s: State, rc: nat)
    requires s.Shape() && AsyncInv(s) && rc < s.Size()
    ensures CancelAll(s, rc).1 == OK && AsyncInv(CancelAll(s, rc).0)
    decreases |s.privs[rc].asynPending|
  {
    var src := FirstFrom(s.privs[rc].asynPending, 0, s.Size());
    if src.Some? {
      assert MaySenda(s, src.value, rc);
      var t := CancelAsync(s, src.value, rc);
      CancelAsyncPending(s, src.value, rc);
      CancelAsyncTruthful(s, src.value, rc);
      assert t.privs[rc].asynPending < s.privs[rc].asynPending;
      CancelAllAsync(t, rc);
    }
  }

  lemma KillAsync(s: State, rc: nat)
    requires s.Shape() && AsyncInv(s) && rc < s.Size()
    ensures AsyncInv(Kill(s, rc)) && !Kill(s, rc).privs[rc].registered
  {
    NoAsyncTruthful(s, Kill(s, rc));
    SameBitsPending(s, Kill(s, rc));
  }

  lemma ExitAsync(s: State, rc: nat)
    requires s.Shape() && AsyncInv(s) && rc < s.Size()
    ensures ClearEndpoint(s, rc).1 == OK && AsyncInv(ClearEndpoint(s, rc).0)
  {
    var u := Kill(s, rc);
    var t := ClearIpc(u, rc);
    KillAsync(s, rc);
    ClearIpcSynchronous(u, rc);
    SynchronousKeeps(u, t);
    CancelAllAsync(t, rc);
    ClearRefsAsync(CancelAll(t, rc).0, rc, 0, EDEADSRCDST);
  }
}
