/** The system calls keep the invariant. */
module IpcCalls {
  import opened IpcTypes
  import opened WaitGraph
  import opened Lists
  import opened IpcSpec
  import opened IpcInv

  // ---------------------------------------------------------------- deadlock() is exact

  /** As mini_send calls it, deadlock() returns, and returns non-zero exactly when the chain
      from the destination leads to the caller. Its exception for groups of two never applies:
      a destination that receives from the caller would have been given the message. */
  lemma SendDeadlockExact(s: State, c: nat, d: nat)
    requires Core(s) && c < s.Size() && d < s.Size() && c != d && !WillReceive(s.procs[d], c)
    ensures var w := Deadlock(s, BySend, c, Ep(d));
      && !w.Endless? && (w.Locked? <==> Reaches(Waits(s), d, c))
      && (w.Locked? ==> 2 <= w.group <= s.Size())
  {
    FollowExact(Waits(s), c, !s.procs[d].sending, [d]);
  }

  /** As mini_receive calls it, likewise: a source that sends to the caller would have been
      found on the caller queue. */
  lemma ReceiveDeadlockExact(s: State, c: nat, e: nat)
    requires Core(s) && c < s.Size() && e < s.Size() && c != e
    requires if s.procs[c].sending then s.procs[c].sendTo == e else e !in s.queues[c]
    ensures var w := Deadlock(s, ByReceive, c, Ep(e));
      && !w.Endless? && (w.Locked? <==> Reaches(Waits(s), e, c))
      && (w.Locked? ==> 2 <= w.group <= s.Size())
  {
    FollowExact(Waits(s), c, s.procs[e].sending, [e]);
    if s.procs[c].sending {
      NotMutual(Waits(s), e, c);
    }
  }

  // ---------------------------------------------------------------- sending

  lemma DirectSendKeeps(s: State, c: nat, d: nat, body: Body)
    requires Core(s) && c < s.Size() && d < s.Size() && !s.procs[d].sending
    ensures Core(DirectSend(s, c, d, body))
  {
    KeepsWaits(s, DirectSend(s, c, d, body));
    DirectSendLocal(s, c, d, body);
  }

  lemma DirectSendLocal(s: State, c: nat, d: nat, body: Body)
    requires s.Sized() && AllLocal(s) && c < s.Size() && d < s.Size() && !s.procs[d].sending
    ensures AllLocal(DirectSend(s, c, d, body))
  {
    LocalAt(s, DirectSend(s, c, d, body), d);
  }

  /** A process that is about to make a call. */
  predicate Idle(p: Proc) { !p.sending && !p.receiving && !p.deliverMsg }

  lemma MiniSendKeeps(s: State, c: nat, d: nat, msg: Option<Body>, nonBlocking: bool)
    requires Core(s) && c < s.Size() && d < s.Size() && c != d && Idle(s.procs[c])
    ensures Core(MiniSend(s, c, d, msg, nonBlocking).0) && MiniSend(s, c, d, msg, nonBlocking).1 != Hung
  {
    if WillReceive(s.procs[d], c) {
      if msg.Some? { DirectSendKeeps(s, c, d, msg.value); }
    } else {
      SendDeadlockExact(s, c, d);
      if msg.Some? && Deadlock(s, BySend, c, Ep(d)).Free? { BlockSendKeeps(s, c, d, msg.value); }
    }
  }

  // ---------------------------------------------------------------- asynchronous sends

  lemma StoreLocal(s: State, src: nat, k: nat, r: Code)
    requires s.Sized() && AllLocal(s) && src < s.Size() && k < |s.privs[src].table|
    ensures AllLocal(StoreResult(s, src, k, r))
  {
    LocalAt(s, StoreResult(s, src, k, r), src);
  }

  lemma PlaceAsyncLocal(s: State, src: nat, k: nat, d: nat)
    requires s.Sized() && AllLocal(s) && src < s.Size() && d < s.Size() && k < |s.privs[src].table|
    requires !s.procs[d].sending
    ensures AllLocal(PlaceAsync(s, src, k, d))
  {
    var e := AsyncPlaced(src, d, s.privs[src].gen, k, s.privs[src].table[k].body);
    PlaceLocal(s, e);
    StoreLocal(Place(s, e), src, k, OK);
  }

  lemma NotifyDoneLocal(s: State, src: nat, notice: bool)
    requires s.Sized() && AllLocal(s) && src < s.Size()
    ensures AllLocal(NotifyDone(s, src, notice))
  {
    if notice { NotifyLocal(s, ASYNCM, src); }
  }

  lemma SetAsynLocal(s: State, d: nat, src: nat)
    requires s.Sized() && AllLocal(s) && d < s.Size() && src < s.Size() && src != d
    ensures AllLocal(SetAsyn(s, d, src))
  {
    LocalAt(s, SetAsyn(s, d, src), d);
  }

  lemma UnsetAsynLocal(s: State, d: nat, src: nat)
    requires s.Sized() && AllLocal(s) && d < s.Size()
    ensures AllLocal(UnsetAsyn(s, d, src))
  {
    LocalAt(s, UnsetAsyn(s, d, src), d);
  }

  lemma RegisterLocal(s: State, src: nat, on: bool)
    requires s.Sized() && AllLocal(s) && src < s.Size()
    ensures AllLocal(Register(s, src, on))
  {
    LocalAt(s, Register(s, src, on), src);
  }

  lemma SendaEntryLocal(a: Scan, c: nat, i: nat)
    requires a.s.Sized() && AllLocal(a.s) && c < a.s.Size() && i < |a.s.privs[c].table|
    ensures AllLocal(SendaEntry(a, c, i).s)
  {
    var s := a.s;
    var e := s.privs[c].table[i];
    if e.Unfinished() {
      var r := Refusal(s, c, e.dst);
      if r != OK {
        StoreLocal(s, c, i, r);
      } else if WillReceive(s.procs[e.dst], c) && (!e.noReply || !s.procs[e.dst].replyPend) {
        PlaceAsyncLocal(s, c, i, e.dst);
      } else {
        SetAsynLocal(s, e.dst, c);
      }
    }
  }

  lemma {:induction false} SendaScanLocal(a: Scan, c: nat, i: nat)
    requires a.s.Sized() && AllLocal(a.s) && c < a.s.Size() && i <= |a.s.privs[c].table|
    ensures AllLocal(SendaScan(a, c, i).s)
    decreases |a.s.privs[c].table| - i
  {
    if i < |a.s.privs[c].table| {
      SendaEntryLocal(a, c, i);
      SendaScanLocal(SendaEntry(a, c, i), c, i + 1);
    }
  }

  lemma FinishSendaLocal(a: Scan, c: nat)
    requires a.s.Sized() && AllLocal(a.s) && c < a.s.Size()
    ensures AllLocal(FinishSenda(a, c))
  {
    NotifyDoneLocal(a.s, c, a.notice);
    RegisterLocal(NotifyDone(a.s, c, a.notice), c, true);
  }

  lemma MiniSendaKeeps(s: State, c: nat, table: seq<Entry>)
    requires Core(s) && c < s.Size()
    ensures Core(MiniSenda(s, c, table).0)
  {
    var a := Scan(Submit(s, c, table), false, false);
    LocalAt(s, a.s, c);
    SendaScanLocal(a, c, 0);
    FinishSendaLocal(SendaScan(a, c, 0), c);
    KeepsWaits(s, MiniSenda(s, c, table).0);
  }

  /** What a vain attempt of `c` to get an asynchronous message leaves alone. */
  ghost predicate SameFor(s: State, t: State, c: nat)
    requires s.Sized() && t.Sized() && c < s.Size() == t.Size()
  {
    && t.procs[c] == s.procs[c] && t.privs[c].notifyPending == s.privs[c].notifyPending
    && t.privs[c].asynPending <= s.privs[c].asynPending
  }

  /** What an attempt to deliver to `c` may do to `c` itself. */
  ghost predicate Tried(s: State, r: (State, Code), c: nat)
    requires s.Sized() && r.0.Sized() && c < s.Size() == r.0.Size()
  {
    && (r.1 != OK ==> SameFor(s, r.0, c))
    && r.0.procs[c].sending == s.procs[c].sending && (r.1 == OK ==> !r.0.procs[c].receiving)
  }

  lemma TriedAgain(s: State, t: State, r: (State, Code), c: nat)
    requires s.Sized() && t.Sized() && r.0.Sized() && c < s.Size() == t.Size() == r.0.Size()
    requires SameFor(s, t, c) && Tried(t, r, c)
    ensures Tried(s, r, c)
  {
  }

  lemma StillPendingSame(s: State, src: nat, c: nat, notice: bool)
    requires s.Sized() && src < s.Size() && c < s.Size() && src != c
    ensures var t := StillPending(s, src, c, notice);
      && t.procs[c] == s.procs[c] && t.privs[c].notifyPending == s.privs[c].notifyPending
      && t.privs[c].asynPending == s.privs[c].asynPending + {src}
  {
  }

  lemma TryOneFrame(s: State, src: nat, c: nat)
    requires s.Sized() && src < s.Size() && c < s.Size() && src != c && src in s.privs[c].asynPending
    ensures Tried(s, TryOne(s, src, c), c)
  {
    var p := s.privs[src];
    if p.sysProc && p.registered && c in p.ipcTo {
      var k := StopAt(p.table, c, s.procs[c].replyPend, 0);
      if k < |p.table| { TryStopped(s, src, c, k); }
    }
  }

  /** The end of try_one at an entry that is refused or delivered. */
  lemma TryStopped(s: State, src: nat, c: nat, k: nat)
    requires s.Sized() && src < s.Size() && c < s.Size() && src != c && src in s.privs[c].asynPending
    requires k < |s.privs[src].table|
    ensures var s1 := UnsetAsyn(s, c, src);
      && (forall notice, r :: SameFor(s, StillPending(StoreResult(s1, src, k, r), src, c, notice), c))
      && (forall notice :: var t := StillPending(PlaceAsync(s1, src, k, c), src, c, notice);
           t.procs[c].sending == s.procs[c].sending && !t.procs[c].receiving)
  {
    var s1 := UnsetAsyn(s, c, src);
    forall notice, r ensures SameFor(s, StillPending(StoreResult(s1, src, k, r), src, c, notice), c) {
      StillPendingSame(StoreResult(s1, src, k, r), src, c, notice);
    }
    forall notice ensures var t := StillPending(PlaceAsync(s1, src, k, c), src, c, notice);
        t.procs[c].sending == s.procs[c].sending && !t.procs[c].receiving {
      StillPendingSame(PlaceAsync(s1, src, k, c), src, c, notice);
    }
  }

  lemma StillPendingLocal(s: State, src: nat, c: nat, notice: bool)
    requires s.Sized() && AllLocal(s) && src < s.Size() && c < s.Size() && src != c
    ensures AllLocal(StillPending(s, src, c, notice))
  {
    NotifyDoneLocal(s, src, notice);
    SetAsynLocal(NotifyDone(s, src, notice), c, src);
  }

  lemma TryOneLocal(s: State, src: nat, c: nat)
    requires s.Sized() && AllLocal(s) && src < s.Size() && c < s.Size() && src != c
    requires !s.procs[c].sending
    ensures AllLocal(TryOne(s, src, c).0)
  {
    var p := s.privs[src];
    if p.sysProc {
      var s1 := UnsetAsyn(s, c, src);
      UnsetAsynLocal(s, c, src);
      if p.registered && c in p.ipcTo {
        var k := StopAt(p.table, c, s.procs[c].replyPend, 0);
        if k == |p.table| {
          RegisterLocal(s1, src, false);
          SetAsynLocal(s1, c, src);
        } else if p.table[k].Bad() {
          StoreLocal(s1, src, k, EINVAL);
          StillPendingLocal(StoreResult(s1, src, k, EINVAL), src, c, p.table[k].WantsNotice(EINVAL));
        } else {
          PlaceAsyncLocal(s1, src, k, c);
          StillPendingLocal(PlaceAsync(s1, src, k, c), src, c, p.table[k].WantsNotice(OK));
        }
      }
    }
  }

  lemma {:induction false} TryAsyncFrame(s: State, c: nat, i: nat)
    requires s.Sized() && c < s.Size() && c !in s.privs[c].asynPending
    ensures Tried(s, TryAsync(s, c, i), c)
    decreases s.Size() - i
  {
    if i < s.Size() {
      if i in s.privs[c].asynPending {
        TryOneFrame(s, i, c);
        var r := TryOne(s, i, c);
        if r.1 != OK {
          TryAsyncFrame(r.0, c, i + 1);
          TriedAgain(s, r.0, TryAsync(r.0, c, i + 1), c);
        }
      } else {
        TryAsyncFrame(s, c, i + 1);
      }
    }
  }

  lemma {:induction false} TryAsyncLocal(s: State, c: nat, i: nat)
    requires s.Sized() && AllLocal(s) && c < s.Size() && !s.procs[c].sending
    ensures AllLocal(TryAsync(s, c, i).0)
    decreases s.Size() - i
  {
    if i < s.Size() {
      if i in s.privs[c].asynPending {
        var r := TryOne(s, i, c);
        assert TryAsync(s, c, i).0 == if r.1 == OK then r.0 else TryAsync(r.0, c, i + 1).0;
        TryOneLocal(s, i, c);
        TryOneFrame(s, i, c);
        if r.1 != OK { TryAsyncLocal(r.0, c, i + 1); }
      } else {
        TryAsyncLocal(s, c, i + 1);
      }
    }
  }

  lemma TryPendingKeeps(s: State, c: nat, from: Target)
    requires Core(s) && c < s.Size() && (from.Ep? ==> 0 <= from.e < s.Size())
    requires !s.procs[c].sending && from != Ep(c)
    ensures var r := TryPending(s, c, from);
      && Core(r.0)
      && (r.1 != OK ==> SameFor(s, r.0, c))
      && r.0.procs[c].sending == s.procs[c].sending && (r.1 == OK ==> !r.0.procs[c].receiving)
  {
    KeepsWaits(s, TryPending(s, c, from).0);
    if HasPending(s.privs[c].asynPending, from, s.Size()).Some? {
      if from.Ep? {
        TryOneLocal(s, from.e, c);
        TryOneFrame(s, from.e, c);
      } else {
        TryAsyncLocal(s, c, 0);
        TryAsyncFrame(s, c, 0);
      }
    }
  }

  lemma FinishCancelLocal(s: State, src: nat, d: nat)
    requires s.Sized() && AllLocal(s) && src < s.Size()
    ensures AllLocal(FinishCancel(s, src, d))
  {
    var v := s.privs[src];
    var t := StoreCancel(s, src, d);
    LocalAt(s, t, src);
    NotifyDoneLocal(t, src, CancelNotice(v.table, d));
    RegisterLocal(NotifyDone(t, src, CancelNotice(v.table, d)), src, true);
  }

  lemma CancelAsyncKeeps(s: State, src: nat, d: nat)
    requires Core(s) && src < s.Size() && d < s.Size()
    ensures Core(CancelAsync(s, src, d))
  {
    RegisterLocal(s, src, false);
    UnsetAsynLocal(Register(s, src, false), d, src);
    FinishCancelLocal(UnsetAsyn(Register(s, src, false), d, src), src, d);
    KeepsWaits(s, CancelAsync(s, src, d));
  }

  // ---------------------------------------------------------------- receiving

  lemma {:induction false} FirstSenderNone(q: seq<nat>, from: Target)
    requires FirstSender(q, from).None?
    ensures forall x :: x in q ==> !Accepts(from, x)
  {
    if q != [] {
      FirstSenderNone(q[1..], from);
    }
  }

  lemma {:induction false} FirstFromNone(bits: set<nat>, i: nat, n: nat, x: nat)
    requires FirstFrom(bits, i, n).None? && i <= x < n
    ensures x !in bits
    decreases n - i
  {
    if i < x { FirstFromNone(bits, i + 1, n, x); }
  }

  lemma HasPendingNone(bits: set<nat>, from: Target, n: nat, x: nat)
    requires HasPending(bits, from, n).None? && x in bits && x < n
    ensures !Accepts(from, x)
  {
    if from == ANY {
      FirstFromNone(bits, 0, n, x);
    }
  }

  lemma TakeNoticeKeeps(s: State, c: nat, id: nat)
    requires Core(s) && c < s.Size() && id < s.Size() && Idle(s.procs[c])
    ensures Core(TakeNotice(s, c, id))
  {
    var t := TakeNotice(s, c, id);
    KeepsWaits(s, t);
    LocalAt(s, t, c);
  }

  lemma TakeQueuedKeeps(s: State, c: nat, p: nat)
    requires Core(s) && c < s.Size() && p in s.queues[c] && Idle(s.procs[c])
    ensures Core(TakeQueued(s, c, p))
  {
    var e := Placed(p, c, s.procs[p].sendMsg);
    UnqueueKeeps(s, p, c);
    PlaceKeeps(Unqueue(s, p, c), e);
    ClearReplyKeeps(Place(Unqueue(s, p, c), e), c);
  }

  /** `c` may ask for a message from `from`: it is idle, or it is the second half of SENDREC. */
  predicate MayReceive(p: Proc, c: nat, from: Target) {
    && !p.receiving && !p.deliverMsg && from != Ep(c)
    && (p.sending ==> from == Ep(p.sendTo) && p.replyPend)
  }

  lemma ReceiveBlockingKeeps(s: State, c: nat, from: Target)
    requires Core(s) && c < s.Size() && (from.Ep? ==> 0 <= from.e < s.Size())
    requires MayReceive(s.procs[c], c, from)
    requires s.procs[c].sending || NothingFor(s, c, from)
    ensures Core(ReceiveBlocking(s, c, from).0) && ReceiveBlocking(s, c, from).1 != Hung
  {
    if from.Ep? { ReceiveDeadlockExact(s, c, from.e); }
    if Deadlock(s, ByReceive, c, from).Free? {
      if s.procs[c].sending || from == ANY || !Reaches(Waits(s), from.e, c) {
        BlockReceiveKeeps(s, c, from);
      }
    }
  }

  lemma ReceiveQueuedKeeps(s: State, c: nat, from: Target)
    requires Core(s) && c < s.Size() && (from.Ep? ==> 0 <= from.e < s.Size())
    requires Idle(s.procs[c]) && from != Ep(c)
    requires !s.procs[c].replyPend ==> HasPending(s.privs[c].notifyPending, from, s.Size()).None?
    ensures Core(ReceiveQueued(s, c, from).0) && ReceiveQueued(s, c, from).1 != Hung
  {
    var p := FirstSender(s.queues[c], from);
    if p.Some? {
      TakeQueuedKeeps(s, c, p.value);
    } else {
      FirstSenderNone(s.queues[c], from);
      if !s.procs[c].replyPend {
        forall x | x in s.privs[c].notifyPending ensures !Accepts(from, x) {
          HasPendingNone(s.privs[c].notifyPending, from, s.Size(), x);
        }
      }
      ReceiveBlockingKeeps(s, c, from);
    }
  }

  lemma MiniReceiveKeeps(s: State, c: nat, from: Target)
    requires Core(s) && c < s.Size() && (from.Ep? ==> 0 <= from.e < s.Size())
    requires MayReceive(s.procs[c], c, from)
    ensures Core(MiniReceive(s, c, from).0) && MiniReceive(s, c, from).1 != Hung
  {
    if from.Ep? && s.procs[from.e].noEndpoint {
    } else if s.procs[c].sending {
      ReceiveBlockingKeeps(s, c, from);
    } else {
      var id := HasPending(s.privs[c].notifyPending, from, s.Size());
      if !s.procs[c].replyPend && id.Some? {
        TakeNoticeKeeps(s, c, id.value);
      } else {
        TryPendingKeeps(s, c, from);
        var (t, r) := TryPending(s, c, from);
        if r == OK { ClearReplyKeeps(t, c); } else { ReceiveQueuedKeeps(t, c, from); }
      }
    }
  }
}
