/** Who is given notifications: only a process that waits for one and not for the reply to a SENDREC, or one
    that asks for it by a RECEIVE of its own. */
module IpcDeaf {
  import opened IpcTypes
  import opened IpcSpec
  import opened IpcInv
  import opened IpcCalls
  import opened IpcExit
  import opened IpcRun
  import IpcResults

  /** The outcome `o` of a notification of `src` to `dst`: refused without a destination, delivered to one who
      waits for it and not for a reply, and otherwise pending. */
  predicate NotifyOutcome(s: State, src: nat, dst: int, o: (State, Code))
    requires s.Sized() && src < s.Size()
  {
    var (t, r) := o;
    if !(0 <= dst < s.Size()) || s.procs[dst].slotFree then t == s && r == EDEADSRCDST
    else if s.procs[dst].receiving && !s.procs[dst].sending && !s.procs[dst].replyPend && Accepts(s.procs[dst].getFrom, src) then
      && r == OK && t.privs == s.privs && t.queues == s.queues && t.log == s.log + [Notified(src, dst)]
      && t.procs == s.procs[dst := s.procs[dst].(delivered := Message(src, Notification), deliverMsg := true, receiving := false)]
    else
      && r == OK && t.procs == s.procs && t.queues == s.queues && t.log == s.log
      && t.privs == s.privs[dst := s.privs[dst].(notifyPending := s.privs[dst].notifyPending + {src})]
  }

  lemma NotifyExact(s: State, src: nat, dst: int)
    requires s.Sized() && src < s.Size()
    ensures NotifyOutcome(s, src, dst, MiniNotify(s, src, dst))
  {
  }

  /** A NOTIFY that is permitted has the outcome of a notification. */
  lemma CallNotifies(s: State, c: nat, d: nat, msg: Option<Body>)
    requires s.Shape() && c < s.Size() && IpcResults.Permitted(s, c, NOTIFY, Ep(d))
    ensures NotifyOutcome(s, c, d, DoSyncIpc(s, c, NOTIFY, Ep(d), msg))
  {
    assert Denial(s, c, NOTIFY, Ep(d)) == OK;
    NotifyExact(s, c, d);
  }

  /** `p` takes no notifications now: it does not wait, or it waits for a reply. */
  predicate Deaf(p: Proc) { !p.receiving || p.sending || p.replyPend }

  /** From `s` to `t` no notification has reached `c`, none that was pending there is gone, but for those of the
      processes in `gone`, and `c` still takes none. */
  ghost predicate Unheard(s: State, t: State, c: nat, gone: set<nat>) {
    && s.Sized() && t.Sized() && c < s.Size() == t.Size() && s.log <= t.log
    && (forall k :: |s.log| <= k < |t.log| ==> !Disturbs(t.log[k], c))
    && s.privs[c].notifyPending <= t.privs[c].notifyPending + gone
    && Deaf(t.procs[c])
  }

  predicate Disturbs(e: Event, c: nat) { e.Notified? && e.dst == c }

  lemma UnheardTwice(s: State, t: State, u: State, c: nat, gone: set<nat>)
    requires Unheard(s, t, c, gone) && Unheard(t, u, c, gone)
    ensures Unheard(s, u, c, gone)
  {
    forall k | |s.log| <= k < |u.log| ensures !Disturbs(u.log[k], c) {
      if k < |t.log| { assert u.log[k] == t.log[k]; }
    }
  }

  /** Nothing but tables, bits and rights of others has changed. */
  lemma SameUnheard(s: State, t: State, c: nat, gone: set<nat>)
    requires s.Sized() && t.Sized() && c < s.Size() == t.Size() && t.log == s.log && Deaf(t.procs[c])
    requires s.privs[c].notifyPending <= t.privs[c].notifyPending + gone
    ensures Unheard(s, t, c, gone)
  {
  }

  /** One event has been added, which is no notification to `c`. */
  lemma NoteUnheard(s: State, t: State, e: Event, c: nat, gone: set<nat>)
    requires s.Sized() && t.Sized() && c < s.Size() == t.Size() && t.log == s.log + [e] && !Disturbs(e, c) && Deaf(t.procs[c])
    requires s.privs[c].notifyPending <= t.privs[c].notifyPending + gone
    ensures Unheard(s, t, c, gone)
  {
  }

  // ---------------------------------------------------------------- notifications and asynchronous sends

  lemma NotifyUnheard(s: State, src: nat, dst: int, c: nat)
    requires s.Sized() && src < s.Size() && c < s.Size() && Deaf(s.procs[c])
    ensures Unheard(s, MiniNotify(s, src, dst).0, c, {})
  {
    var t := MiniNotify(s, src, dst).0;
    if t.log == s.log { SameUnheard(s, t, c, {}); } else { NoteUnheard(s, t, Notified(src, dst), c, {}); }
  }

  lemma NotifyDoneUnheard(s: State, src: nat, notice: bool, c: nat)
    requires s.Sized() && src < s.Size() && c < s.Size() && Deaf(s.procs[c])
    ensures Unheard(s, NotifyDone(s, src, notice), c, {})
  {
    if notice { NotifyUnheard(s, ASYNCM, src, c); } else { SameUnheard(s, s, c, {}); }
  }

  lemma PlaceAsyncUnheard(s: State, src: nat, k: nat, d: nat, c: nat)
    requires s.Sized() && src < s.Size() && d < s.Size() && k < |s.privs[src].table| && c < s.Size() && Deaf(s.procs[c])
    ensures Unheard(s, PlaceAsync(s, src, k, d), c, {})
  {
    NoteUnheard(s, PlaceAsync(s, src, k, d), AsyncPlaced(src, d, s.privs[src].gen, k, s.privs[src].table[k].body), c, {});
  }

  lemma SendaEntryUnheard(a: Scan, x: nat, i: nat, c: nat)
    requires a.s.Sized() && x < a.s.Size() && i < |a.s.privs[x].table| && c < a.s.Size() && Deaf(a.s.procs[c])
    ensures Unheard(a.s, SendaEntry(a, x, i).s, c, {})
  {
    var s, e := a.s, a.s.privs[x].table[i];
    if e.Unfinished() && Refusal(s, x, e.dst) == OK && WillReceive(s.procs[e.dst], x) && (!e.noReply || !s.procs[e.dst].replyPend) {
      PlaceAsyncUnheard(s, x, i, e.dst, c);
    } else {
      SameUnheard(s, SendaEntry(a, x, i).s, c, {});
    }
  }

  lemma {:induction false} SendaScanUnheard(a: Scan, x: nat, i: nat, c: nat)
    requires a.s.Sized() && x < a.s.Size() && i <= |a.s.privs[x].table| && c < a.s.Size() && Deaf(a.s.procs[c])
    ensures Unheard(a.s, SendaScan(a, x, i).s, c, {})
    decreases |a.s.privs[x].table| - i
  {
    if i < |a.s.privs[x].table| {
      var b := SendaEntry(a, x, i);
      SendaEntryUnheard(a, x, i, c);
      SendaScanUnheard(b, x, i + 1, c);
      UnheardTwice(a.s, b.s, SendaScan(b, x, i + 1).s, c, {});
    } else {
      SameUnheard(a.s, a.s, c, {});
    }
  }

  lemma FinishSendaUnheard(a: Scan, x: nat, c: nat)
    requires a.s.Sized() && x < a.s.Size() && c < a.s.Size() && Deaf(a.s.procs[c])
    ensures Unheard(a.s, FinishSenda(a, x), c, {})
  {
    var u := NotifyDone(a.s, x, a.notice);
    NotifyDoneUnheard(a.s, x, a.notice, c);
    SameUnheard(u, FinishSenda(a, x), c, {});
    UnheardTwice(a.s, u, FinishSenda(a, x), c, {});
  }

  lemma MiniSendaUnheard(s: State, x: nat, table: seq<Entry>, c: nat)
    requires s.Sized() && x < s.Size() && c < s.Size() && Deaf(s.procs[c])
    ensures Unheard(s, MiniSenda(s, x, table).0, c, {})
  {
    if MiniSenda(s, x, table).1 == OK {
      var a := Scan(Submit(s, x, table), false, false);
      var b := SendaScan(a, x, 0);
      SameUnheard(s, a.s, c, {});
      SendaScanUnheard(a, x, 0, c);
      UnheardTwice(s, a.s, b.s, c, {});
      FinishSendaUnheard(b, x, c);
      UnheardTwice(s, b.s, FinishSenda(b, x), c, {});
    } else {
      SameUnheard(s, s, c, {});
    }
  }

  lemma StillPendingUnheard(s: State, src: nat, d: nat, notice: bool, c: nat)
    requires s.Sized() && src < s.Size() && d < s.Size() && c < s.Size() && Deaf(s.procs[c])
    ensures Unheard(s, StillPending(s, src, d, notice), c, {})
  {
    var u := NotifyDone(s, src, notice);
    NotifyDoneUnheard(s, src, notice, c);
    SameUnheard(u, StillPending(s, src, d, notice), c, {});
    UnheardTwice(s, u, StillPending(s, src, d, notice), c, {});
  }

  /** The end of try_one at an entry that is refused or delivered. */
  lemma StoppedUnheard(s: State, src: nat, d: nat, k: nat, r: Code, notice: bool, c: nat)
    requires s.Sized() && src < s.Size() && d < s.Size() && k < |s.privs[src].table| && c < s.Size() && Deaf(s.procs[c])
    ensures var s2 := if r == OK then PlaceAsync(s, src, k, d) else StoreResult(s, src, k, r);
      Unheard(s, StillPending(s2, src, d, notice), c, {})
  {
    var s2 := if r == OK then PlaceAsync(s, src, k, d) else StoreResult(s, src, k, r);
    if r == OK { PlaceAsyncUnheard(s, src, k, d, c); } else { SameUnheard(s, s2, c, {}); }
    StillPendingUnheard(s2, src, d, notice, c);
    UnheardTwice(s, s2, StillPending(s2, src, d, notice), c, {});
  }

  lemma TryOneUnheard(s: State, src: nat, d: nat, c: nat)
    requires s.Sized() && src < s.Size() && d < s.Size() && c < s.Size() && Deaf(s.procs[c])
    ensures Unheard(s, TryOne(s, src, d).0, c, {})
  {
    var p := s.privs[src];
    var k := StopAt(p.table, d, s.procs[d].replyPend, 0);
    if p.sysProc && p.registered && d in p.ipcTo && k < |p.table| {
      var s1 := UnsetAsyn(s, d, src);
      var r := if p.table[k].Bad() then EINVAL else OK;
      SameUnheard(s, s1, c, {});
      StoppedUnheard(s1, src, d, k, r, p.table[k].WantsNotice(r), c);
      UnheardTwice(s, s1, TryOne(s, src, d).0, c, {});
    } else {
      SameUnheard(s, TryOne(s, src, d).0, c, {});
    }
  }

  lemma {:induction false} TryAsyncUnheard(s: State, d: nat, i: nat, c: nat)
    requires s.Sized() && d < s.Size() && c < s.Size() && Deaf(s.procs[c])
    ensures Unheard(s, TryAsync(s, d, i).0, c, {})
    decreases s.Size() - i
  {
    if i < s.Size() {
      if i in s.privs[d].asynPending {
        var r := TryOne(s, i, d);
        assert TryAsync(s, d, i).0 == if r.1 == OK then r.0 else TryAsync(r.0, d, i + 1).0;
        TryOneUnheard(s, i, d, c);
        if r.1 != OK {
          TryAsyncUnheard(r.0, d, i + 1, c);
          UnheardTwice(s, r.0, TryAsync(r.0, d, i + 1).0, c, {});
        }
      } else {
        TryAsyncUnheard(s, d, i + 1, c);
      }
    } else {
      SameUnheard(s, s, c, {});
    }
  }

  lemma TryPendingUnheard(s: State, d: nat, from: Target, c: nat)
    requires s.Sized() && d < s.Size() && (from.Ep? ==> 0 <= from.e < s.Size()) && c < s.Size() && Deaf(s.procs[c])
    ensures Unheard(s, TryPending(s, d, from).0, c, {})
  {
    if HasPending(s.privs[d].asynPending, from, s.Size()).None? {
      SameUnheard(s, s, c, {});
    } else if from.Ep? {
      TryOneUnheard(s, from.e, d, c);
    } else {
      TryAsyncUnheard(s, d, 0, c);
    }
  }

  lemma FinishCancelUnheard(s: State, src: nat, d: nat, c: nat)
    requires s.Sized() && src < s.Size() && c < s.Size() && Deaf(s.procs[c])
    ensures Unheard(s, FinishCancel(s, src, d), c, {})
  {
    var t, notice := StoreCancel(s, src, d), CancelNotice(s.privs[src].table, d);
    var u := NotifyDone(t, src, notice);
    SameUnheard(s, t, c, {});
    NotifyDoneUnheard(t, src, notice, c);
    UnheardTwice(s, t, u, c, {});
    SameUnheard(u, FinishCancel(s, src, d), c, {});
    UnheardTwice(s, u, FinishCancel(s, src, d), c, {});
  }

  lemma CancelAsyncUnheard(s: State, src: nat, d: nat, c: nat)
    requires s.Sized() && src < s.Size() && d < s.Size() && c < s.Size() && Deaf(s.procs[c])
    ensures Unheard(s, CancelAsync(s, src, d), c, {})
  {
    var t := UnsetAsyn(Register(s, src, false), d, src);
    if s.privs[src].sysProc && s.privs[src].registered && d in s.privs[src].ipcTo {
      SameUnheard(s, t, c, {});
      FinishCancelUnheard(t, src, d, c);
      UnheardTwice(s, t, FinishCancel(t, src, d), c, {});
    } else {
      SameUnheard(s, CancelAsync(s, src, d), c, {});
    }
  }

  lemma {:induction false} CancelAllUnheard(s: State, rc: nat, c: nat)
    requires s.Shape() && rc < s.Size() && c < s.Size() && Deaf(s.procs[c])
    ensures Unheard(s, CancelAll(s, rc).0, c, {})
    decreases |s.privs[rc].asynPending|
  {
    var src := FirstFrom(s.privs[rc].asynPending, 0, s.Size());
    if src.Some? && s.privs[src.value].sysProc {
      var t := CancelAsync(s, src.value, rc);
      assert t.privs[rc].asynPending < s.privs[rc].asynPending;
      CancelAsyncUnheard(s, src.value, rc, c);
      CancelAllUnheard(t, rc, c);
      UnheardTwice(s, t, CancelAll(t, rc).0, c, {});
    } else {
      SameUnheard(s, s, c, {});
    }
  }

  // ---------------------------------------------------------------- synchronous calls

  lemma MiniSendUnheard(s: State, a: nat, d: nat, msg: Option<Body>, nonBlocking: bool, c: nat)
    requires s.Shape() && a < s.Size() && d < s.Size() && c < s.Size() && Deaf(s.procs[c])
    ensures Unheard(s, MiniSend(s, a, d, msg, nonBlocking).0, c, {})
  {
    var t := MiniSend(s, a, d, msg, nonBlocking).0;
    if t.log == s.log { SameUnheard(s, t, c, {}); }
  }

  /** A sender that is taken off a queue and then only waits, waits for a reply. */
  lemma TakeQueuedUnheard(s: State, a: nat, p: nat, c: nat)
    requires s.Shape() && AllLocal(s) && a < s.Size() && p < s.Size() && p != a && s.procs[p].sending
    requires c < s.Size() && Deaf(s.procs[c])
    ensures Unheard(s, TakeQueued(s, a, p), c, {})
  {
    assert Local(p, s.procs[p], s.privs[p]);
    NoteUnheard(s, TakeQueued(s, a, p), Placed(p, a, s.procs[p].sendMsg), c, {});
  }

  lemma ReceiveQueuedUnheard(s: State, a: nat, from: Target, c: nat)
    requires s.Shape() && AllLocal(s) && Queues(s) && a < s.Size() && (from.Ep? ==> 0 <= from.e < s.Size())
    requires !s.procs[a].sending && c < s.Size() && Deaf(s.procs[c]) && (a == c ==> s.procs[c].replyPend)
    ensures Unheard(s, ReceiveQueued(s, a, from).0, c, {})
  {
    var p := FirstSender(s.queues[a], from);
    if p.Some? { TakeQueuedUnheard(s, a, p.value, c); } else { SameUnheard(s, ReceiveQueued(s, a, from).0, c, {}); }
  }

  lemma TakeNoticeUnheard(s: State, a: nat, id: nat, c: nat)
    requires s.Sized() && a < s.Size() && c < s.Size() && a != c && Deaf(s.procs[c])
    ensures Unheard(s, TakeNotice(s, a, id), c, {})
  {
    NoteUnheard(s, TakeNotice(s, a, id), Notified(id, a), c, {});
  }

  lemma MiniReceiveUnheard(s: State, a: nat, from: Target, c: nat)
    requires Core(s) && a < s.Size() && (from.Ep? ==> 0 <= from.e < s.Size()) && (MayReceive(s.procs[a], a, from) || Idle(s.procs[a]))
    requires c < s.Size() && Deaf(s.procs[c]) && (a == c ==> s.procs[c].replyPend && from != Ep(c))
    ensures Unheard(s, MiniReceive(s, a, from).0, c, {})
  {
    var id := HasPending(s.privs[a].notifyPending, from, s.Size());
    if (from.Ep? && s.procs[from.e].noEndpoint) || s.procs[a].sending {
      SameUnheard(s, MiniReceive(s, a, from).0, c, {});
    } else if !s.procs[a].replyPend && id.Some? {
      TakeNoticeUnheard(s, a, id.value, c);
    } else {
      AfterNoticeUnheard(s, a, from, c);
    }
  }

  lemma AfterNoticeUnheard(s: State, a: nat, from: Target, c: nat)
    requires Core(s) && a < s.Size() && (from.Ep? ==> 0 <= from.e < s.Size()) && Idle(s.procs[a])
    requires c < s.Size() && Deaf(s.procs[c]) && (a == c ==> s.procs[c].replyPend && from != Ep(c))
    ensures var (t, r) := TryPending(s, a, from); Unheard(s, if r == OK then ClearReply(t, a) else ReceiveQueued(t, a, from).0, c, {})
  {
    var (t, r) := TryPending(s, a, from);
    TryPendingUnheard(s, a, from, c);
    PendingFrame(s, a, from);
    if r == OK {
      SameUnheard(t, ClearReply(t, a), c, {});
      UnheardTwice(s, t, ClearReply(t, a), c, {});
    } else {
      ReceiveQueuedUnheard(t, a, from, c);
      UnheardTwice(s, t, ReceiveQueued(t, a, from).0, c, {});
    }
  }

  /** What the look for asynchronous messages leaves. */
  lemma PendingFrame(s: State, a: nat, from: Target)
    requires Core(s) && a < s.Size() && (from.Ep? ==> 0 <= from.e < s.Size()) && Idle(s.procs[a])
    ensures var (t, r) := TryPending(s, a, from);
      && t.Shape() && AllLocal(t) && Queues(t) && !t.procs[a].sending && !t.procs[a].receiving
      && (r != OK ==> t.procs[a] == s.procs[a])
  {
    assert Local(a, s.procs[a], s.privs[a]);
    if from != Ep(a) { TryPendingKeeps(s, a, from); }
  }

  lemma SendReceiveUnheard(s: State, a: nat, d: nat, msg: Option<Body>, c: nat)
    requires Core(s) && a < s.Size() && d < s.Size() && a != d && Idle(s.procs[a]) && c < s.Size() && Deaf(s.procs[c])
    ensures Unheard(s, SendReceive(s, a, d, msg).0, c, {})
  {
    var u := SetReply(s, a);
    SetReplyKeeps(s, a);
    SameUnheard(s, u, c, {});
    MiniSendUnheard(u, a, d, msg, false, c);
    MiniSendKeeps(u, a, d, msg, false);
    var r := MiniSend(u, a, d, msg, false);
    UnheardTwice(s, u, r.0, c, {});
    if r.1 == OK {
      SecondHalf(s, a, d, msg);
      StillAwaiting(u, a, d, msg);
      MiniReceiveUnheard(r.0, a, Ep(d), c);
      UnheardTwice(s, r.0, MiniReceive(r.0, a, Ep(d)).0, c, {});
    }
  }

  lemma StillAwaiting(s: State, a: nat, d: nat, msg: Option<Body>)
    requires s.Shape() && a < s.Size() && d < s.Size() && a != d && s.procs[a].replyPend
    ensures MiniSend(s, a, d, msg, false).0.procs[a].replyPend
  {
  }

  /** The step is a RECEIVE by `c`. */
  predicate Asks(step: Step, c: nat) { step.Trap? && step.c == c && step.call == RECEIVE }

  lemma TrapUnheard(s: State, step: Step, c: nat)
    requires Core(s) && Possible(s, step) && step.Trap? && c < s.Size() && Deaf(s.procs[c]) && !Asks(step, c)
    ensures Unheard(s, Apply(s, step).0, c, {})
  {
    var a, to := step.c, step.to;
    if Denial(s, a, step.call, to) != OK {
      SameUnheard(s, s, c, {});
    } else {
      assert Local(a, s.procs[a], s.privs[a]);
      match step.call
      case SENDREC => SendReceiveUnheard(s, a, to.e, step.msg, c);
      case SEND => MiniSendUnheard(s, a, to.e, step.msg, false, c);
      case SENDNB => MiniSendUnheard(s, a, to.e, step.msg, true, c);
      case NOTIFY => NotifyUnheard(s, a, to.e, c);
      case RECEIVE => ReceiveUnheard(s, a, to, c);
    }
  }

  lemma ReceiveUnheard(s: State, a: nat, to: Target, c: nat)
    requires Core(s) && MayTrap(s, a) && (to.Ep? ==> 0 <= to.e < s.Size()) && c < s.Size() && a != c && Deaf(s.procs[c])
    ensures Unheard(s, MiniReceive(ClearReply(s, a), a, to).0, c, {})
  {
    var u := ClearReply(s, a);
    ClearReplyKeeps(s, a);
    SameUnheard(s, u, c, {});
    MiniReceiveUnheard(u, a, to, c);
    UnheardTwice(s, u, MiniReceive(u, a, to).0, c, {});
  }

  // ---------------------------------------------------------------- exit

  lemma ClearIpcUnheard(s: State, p: nat, c: nat, gone: set<nat>)
    requires s.Shape() && p < s.Size() && c < s.Size() && Deaf(s.procs[c])
    ensures Unheard(s, ClearIpc(s, p), c, gone)
  {
    var t := ClearIpc(s, p);
    if s.procs[p].sending {
      NoteUnheard(s, t, Cancelled(p, s.procs[p].sendTo, s.procs[p].sendMsg), c, gone);
    } else {
      SameUnheard(s, t, c, gone);
    }
  }

  lemma ClearRefUnheard(s: State, rc: nat, i: nat, code: Code, c: nat)
    requires s.Shape() && rc < s.Size() && i < s.Size() && c < s.Size() && Deaf(s.procs[c])
    ensures Unheard(s, ClearRef(s, rc, i, code), c, {rc})
  {
    if s.procs[i].slotFree {
      SameUnheard(s, s, c, {rc});
    } else {
      var t := DropBits(s, rc, i, code);
      ClearRefIs(s, rc, i, code);
      SameUnheard(s, t, c, {rc});
      ClearIpcUnheard(t, i, c, {rc});
      UnheardTwice(s, t, ClearIpc(t, i), c, {rc});
    }
  }

  lemma {:induction false} ClearRefsUnheard(s: State, rc: nat, i: nat, code: Code, c: nat)
    requires s.Shape() && rc < s.Size() && i <= s.Size() && c < s.Size() && Deaf(s.procs[c])
    ensures Unheard(s, ClearRefs(s, rc, i, code), c, {rc})
    decreases s.Size() - i
  {
    if i < s.Size() {
      var t := ClearRef(s, rc, i, code);
      ClearRefUnheard(s, rc, i, code, c);
      ClearRefsUnheard(t, rc, i + 1, code, c);
      UnheardTwice(s, t, ClearRefs(t, rc, i + 1, code), c, {rc});
    } else {
      SameUnheard(s, s, c, {rc});
    }
  }

  lemma ExitUnheard(s: State, rc: nat, c: nat)
    requires s.Shape() && rc < s.Size() && c < s.Size() && Deaf(s.procs[c])
    ensures Unheard(s, ClearEndpoint(s, rc).0, c, {rc})
  {
    var k := Kill(s, rc);
    var t := ClearIpc(k, rc);
    var u := CancelAll(t, rc);
    SameUnheard(s, k, c, {rc});
    ClearIpcUnheard(k, rc, c, {rc});
    UnheardTwice(s, k, t, c, {rc});
    CancelAllUnheard(t, rc, c);
    assert Unheard(t, u.0, c, {rc});
    UnheardTwice(s, t, u.0, c, {rc});
    if u.1 == OK {
      ClearRefsUnheard(u.0, rc, 0, EDEADSRCDST, c);
      UnheardTwice(s, u.0, ClearRefs(u.0, rc, 0, EDEADSRCDST), c, {rc});
    }
  }

  // ---------------------------------------------------------------- every step, every run

  function Leaver(step: Step): set<nat> { if step.Exit? then {step.rc} else {} }

  lemma QuantumUnheard(s: State, step: Step, c: nat)
    requires s.Shape() && Possible(s, step) && step.OutOfQuantum? && c < s.Size() && Deaf(s.procs[c])
    ensures Unheard(s, Apply(s, step).0, c, {})
  {
    var u := SetStops(s, step.p, s.procs[step.p].stops + {NO_QUANTUM});
    SameUnheard(s, u, c, {});
    MiniSendUnheard(u, step.p, step.d, Some(step.body), false, c);
    UnheardTwice(s, u, Apply(s, step).0, c, {});
  }

  lemma ManageUnheard(s: State, step: Step, c: nat)
    requires s.Shape() && Possible(s, step) && !step.Trap? && !step.OutOfQuantum? && !step.Exit?
    requires c < s.Size() && Deaf(s.procs[c])
    ensures Unheard(s, Apply(s, step).0, c, {})
  {
    match step
    case Senda(x, table) => MiniSendaUnheard(s, x, table, c);
    case Signal(src, dst) => NotifyUnheard(s, src, dst, c);
    case CopyOut(p) => NoteUnheard(s, Delivered(s, p), Copied(p, s.procs[p].delivered), c, {});
    case Halt(_, _) => SameUnheard(s, Apply(s, step).0, c, {});
    case Continue(_, _) => SameUnheard(s, Apply(s, step).0, c, {});
  }

  /** A process that does not wait, or waits for the reply to its SENDREC, is given no notification by any step
      but a RECEIVE of its own, and those pending for it stay, unless their sender exits. In particular its
      SENDREC itself takes none. */
  lemma StepUnheard(s: State, step: Step, c: nat)
    requires Core(s) && Possible(s, step) && c < s.Size() && Deaf(s.procs[c]) && !Asks(step, c)
    ensures Unheard(s, Apply(s, step).0, c, Leaver(step))
  {
    if step.Trap? {
      TrapUnheard(s, step, c);
    } else if step.OutOfQuantum? {
      QuantumUnheard(s, step, c);
    } else if step.Exit? {
      ExitUnheard(s, step.rc, c);
    } else {
      ManageUnheard(s, step, c);
    }
  }

  ghost predicate LeftBetween(steps: seq<Step>, i: nat, j: nat, x: nat) {
    exists k :: i <= k < j && k < |steps| && steps[k] == Exit(x)
  }

  /** In every run, from a point at which `c` takes no notifications up to its next RECEIVE, none reaches it, and
      those pending for it stay, unless their sender exits: a SENDREC is answered by messages only. */
  lemma {:induction false} NotDisturbed(states: seq<State>, steps: seq<Step>, i: nat, j: nat, c: nat)
    requires Run(states, steps) && i <= j < |states| && states[i].Sized() && c < states[i].Size() && Deaf(states[i].procs[c])
    requires forall k :: i <= k < j ==> !Asks(steps[k], c)
    ensures states[j].Sized() && c < states[j].Size() && Deaf(states[j].procs[c]) && states[i].log <= states[j].log
    ensures forall m :: |states[i].log| <= m < |states[j].log| ==> !Disturbs(states[j].log[m], c)
    ensures forall x :: x in states[i].privs[c].notifyPending ==> x in states[j].privs[c].notifyPending || LeftBetween(steps, i, j, x)
    decreases j - i
  {
    if i < j {
      var h := j - 1;
      NotDisturbed(states, steps, i, h, c);
      RunsKeep(states, steps, h);
      assert Leads(states[h], steps[h], states[h + 1]);
      StepUnheard(states[h], steps[h], c);
      forall m | |states[i].log| <= m < |states[j].log| ensures !Disturbs(states[j].log[m], c) {
        if m < |states[h].log| { assert states[j].log[m] == states[h].log[m]; }
      }
      forall x | x in states[i].privs[c].notifyPending
        ensures x in states[j].privs[c].notifyPending || LeftBetween(steps, i, j, x)
      {
        if LeftBetween(steps, i, h, x) {
          var k :| i <= k < h && k < |steps| && steps[k] == Exit(x);
          assert i <= k < j && steps[k] == Exit(x);
        } else if x !in states[j].privs[c].notifyPending {
          assert x in Leaver(steps[h]) && steps[h] == Exit(x);
        }
      }
    }
  }
}
