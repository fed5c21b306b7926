/** Notifications: none is ignored, and none is lost unless its sender exits. */
module IpcNotices {
  import opened IpcTypes
  import opened IpcSpec
  import opened IpcInv
  import opened IpcExit
  import opened IpcRun

  /** Nobody who would take a notification has one pending. */
  lemma NoNoticeIgnored(states: seq<State>, steps: seq<Step>, k: nat, d: nat, src: nat)
    requires Run(states, steps) && k < |states| && states[k].Sized() && d < states[k].Size()
    requires src in states[k].privs[d].notifyPending
    ensures !(WillReceive(states[k].procs[d], src) && !states[k].procs[d].replyPend)
  {
    RunsKeep(states, steps, k);
    assert Local(d, states[k].procs[d], states[k].privs[d]);
  }

  /** Pending notifications of `t` cover those of `s`, but for the ones that the history of `t`
      shows as delivered since, and those from the processes in `gone`. */
  ghost predicate NoticesStay(s: State, t: State, gone: set<nat>) {
    && s.Sized() && t.Sized() && t.Size() == s.Size() && s.log <= t.log
    && forall d, x :: 0 <= d < s.Size() && x in s.privs[d].notifyPending && x !in gone ==>
         NoticeStays(s, t, d, x)
  }

  /** The notification of `x` to `d` is still pending, or has been delivered since. */
  predicate NoticeStays(s: State, t: State, d: nat, x: nat)
    requires t.Sized() && d < t.Size() && s.log <= t.log
  {
    x in t.privs[d].notifyPending || Notified(x, d) in t.log[|s.log|..]
  }

  lemma AsideStays(s: State, t: State)
    requires s.Sized() && Aside(s, t)
    ensures NoticesStay(s, t, {})
  {
    assert s.log <= t.log;
  }

  lemma Later(a: seq<Event>, b: seq<Event>, c: seq<Event>, e: Event)
    requires a <= b <= c
    ensures e in b[|a|..] ==> e in c[|a|..]
    ensures e in c[|b|..] ==> e in c[|a|..]
  {
    if e in b[|a|..] {
      var k :| 0 <= k < |b[|a|..]| && b[|a|..][k] == e;
      assert c[|a|..][k] == e;
    }
    if e in c[|b|..] {
      var k :| 0 <= k < |c[|b|..]| && c[|b|..][k] == e;
      assert c[|a|..][k + |b| - |a|] == e;
    }
  }

  lemma StaysTwice(s: State, t: State, u: State, gone: set<nat>)
    requires NoticesStay(s, t, gone) && NoticesStay(t, u, gone)
    ensures NoticesStay(s, u, gone)
  {
    forall d, x | 0 <= d < s.Size() && x in s.privs[d].notifyPending && x !in gone ensures NoticeStays(s, u, d, x) {
      assert NoticeStays(s, t, d, x);
      Later(s.log, t.log, u.log, Notified(x, d));
      if x in t.privs[d].notifyPending { assert NoticeStays(t, u, d, x); }
    }
  }

  lemma ReceiveQueuedStays(s: State, c: nat, from: Target)
    requires s.Shape() && c < s.Size() && (from.Ep? ==> 0 <= from.e < s.Size())
    ensures NoticesStay(s, ReceiveQueued(s, c, from).0, {})
  {
  }

  lemma TakeNoticeStays(s: State, c: nat, id: nat)
    requires s.Sized() && c < s.Size()
    ensures NoticesStay(s, TakeNotice(s, c, id), {})
  {
    assert TakeNotice(s, c, id).log[|s.log|..] == [Notified(id, c)];
  }

  lemma MiniReceiveStays(s: State, c: nat, from: Target)
    requires s.Shape() && c < s.Size() && (from.Ep? ==> 0 <= from.e < s.Size())
    ensures NoticesStay(s, MiniReceive(s, c, from).0, {})
  {
    var id := HasPending(s.privs[c].notifyPending, from, s.Size());
    if (from.Ep? && s.procs[from.e].noEndpoint) || s.procs[c].sending {
    } else if !s.procs[c].replyPend && id.Some? {
      TakeNoticeStays(s, c, id.value);
    } else {
      var (t, r) := TryPending(s, c, from);
      AsideStays(s, t);
      if r == OK {
        StaysTwice(s, t, ClearReply(t, c), {});
      } else {
        ReceiveQueuedStays(t, c, from);
        StaysTwice(s, t, ReceiveQueued(t, c, from).0, {});
      }
    }
  }

  lemma SendStays(s: State, c: nat, d: nat, msg: Option<Body>, nonBlocking: bool)
    requires s.Shape() && c < s.Size() && d < s.Size()
    ensures NoticesStay(s, MiniSend(s, c, d, msg, nonBlocking).0, {})
  {
  }

  lemma TrapStays(s: State, c: nat, call: Call, to: Target, msg: Option<Body>)
    requires s.Shape() && c < s.Size()
    ensures NoticesStay(s, DoSyncIpc(s, c, call, to, msg).0, {})
  {
    if Denial(s, c, call, to) == OK {
      match call
      case SENDREC =>
        SendStays(SetReply(s, c), c, to.e, msg, false);
        var t := MiniSend(SetReply(s, c), c, to.e, msg, false);
        StaysTwice(s, SetReply(s, c), t.0, {});
        if t.1 == OK {
          MiniReceiveStays(t.0, c, to);
          StaysTwice(s, t.0, MiniReceive(t.0, c, to).0, {});
        }
      case SEND => SendStays(s, c, to.e, msg, false);
      case SENDNB => SendStays(s, c, to.e, msg, true);
      case NOTIFY => AsideStays(s, MiniNotify(s, c, to.e).0);
      case RECEIVE =>
        MiniReceiveStays(ClearReply(s, c), c, to);
        StaysTwice(s, ClearReply(s, c), MiniReceive(ClearReply(s, c), c, to).0, {});
    }
  }

  // ---------------------------------------------------------------- exit

  lemma ClearIpcStays(s: State, p: nat)
    requires s.Shape() && p < s.Size()
    ensures NoticesStay(s, ClearIpc(s, p), {}) && ClearIpc(s, p).privs == s.privs
  {
  }

  lemma ClearRefStays(s: State, rc: nat, i: nat, code: Code)
    requires s.Shape() && rc < s.Size() && i < s.Size()
    ensures NoticesStay(s, ClearRef(s, rc, i, code), {rc})
  {
    if !s.procs[i].slotFree {
      ClearRefIs(s, rc, i, code);
      ClearIpcStays(DropBits(s, rc, i, code), i);
    }
  }

  lemma {:induction false} ClearRefsStays(s: State, rc: nat, i: nat, code: Code)
    requires s.Shape() && rc < s.Size() && i <= s.Size()
    ensures NoticesStay(s, ClearRefs(s, rc, i, code), {rc})
    decreases s.Size() - i
  {
    if i < s.Size() {
      var t := ClearRef(s, rc, i, code);
      ClearRefStays(s, rc, i, code);
      ClearRefsStays(t, rc, i + 1, code);
      StaysTwice(s, t, ClearRefs(t, rc, i + 1, code), {rc});
    }
  }

  lemma KillStays(s: State, rc: nat)
    requires s.Shape() && rc < s.Size()
    ensures NoticesStay(s, ClearIpc(Kill(s, rc), rc), {rc})
  {
    ClearIpcStays(Kill(s, rc), rc);
  }

  /** Exit takes back the notifications of the process itself and no others. */
  lemma ExitStays(s: State, rc: nat)
    requires s.Shape() && rc < s.Size()
    ensures NoticesStay(s, ClearEndpoint(s, rc).0, {rc})
  {
    var t := ClearIpc(Kill(s, rc), rc);
    var u := CancelAll(t, rc);
    KillStays(s, rc);
    AsideStays(t, u.0);
    StaysTwice(s, t, u.0, {rc});
    if u.1 == OK {
      ClearRefsStays(u.0, rc, 0, EDEADSRCDST);
      StaysTwice(s, u.0, ClearRefs(u.0, rc, 0, EDEADSRCDST), {rc});
    }
  }

  // ---------------------------------------------------------------- every step, every run

  function Leaving(step: Step): set<nat> { if step.Exit? then {step.rc} else {} }

  /** A pending notification stays pending until it is delivered, whatever the kernel is asked to do,
      unless its sender exits. */
  lemma NoticeNotLost(s: State, step: Step)
    requires s.Shape() && Possible(s, step)
    ensures NoticesStay(s, Apply(s, step).0, Leaving(step))
  {
    match step
    case Trap(c, call, to, msg) => TrapStays(s, c, call, to, msg);
    case Senda(c, table) => AsideStays(s, MiniSenda(s, c, table).0);
    case OutOfQuantum(p, d, body) =>
      var t := SetStops(s, p, s.procs[p].stops + {NO_QUANTUM});
      SendStays(t, p, d, Some(body), false);
    case Signal(src, dst) => AsideStays(s, MiniNotify(s, src, dst).0);
    case CopyOut(p) => AsideStays(s, Delivered(s, p));
    case Halt(_, _) =>
    case Continue(_, _) =>
    case Exit(rc) => ExitStays(s, rc);
  }

  ghost predicate ExitsBetween(steps: seq<Step>, i: nat, j: nat, x: nat) {
    exists k :: i <= k < j && k < |steps| && steps[k] == Exit(x)
  }

  /** In every run, a notification pending at one point is pending at every later point, or has been
      delivered in between, or its sender has exited in between. */
  lemma {:induction false} NoticeInRuns(states: seq<State>, steps: seq<Step>, i: nat, j: nat, d: nat, x: nat)
    requires Run(states, steps) && i <= j < |states| && states[i].Sized() && d < states[i].Size()
    requires x in states[i].privs[d].notifyPending
    ensures states[j].Sized() && d < states[j].Size() && states[i].log <= states[j].log
    ensures NoticeStays(states[i], states[j], d, x) || ExitsBetween(steps, i, j, x)
    decreases j - i
  {
    if i < j {
      var h := j - 1;
      NoticeInRuns(states, steps, i, h, d, x);
      assert Leads(states[h], steps[h], states[h + 1]);
      NoticeNotLost(states[h], steps[h]);
      Later(states[i].log, states[h].log, states[j].log, Notified(x, d));
      if ExitsBetween(steps, i, h, x) {
        var k :| i <= k < h && k < |steps| && steps[k] == Exit(x);
        assert i <= k < j && steps[k] == Exit(x);
      } else if x in states[h].privs[d].notifyPending {
        if x in Leaving(steps[h]) { assert steps[h] == Exit(x); } else { assert NoticeStays(states[h], states[j], d, x); }
      }
    }
  }

  /** The step notifies `d` on behalf of `x`: by a call that is not refused, or by the kernel itself. */
  predicate Notifies(s: State, step: Step, x: nat, d: nat)
    requires s.Sized()
  {
    && OkEndpoint(s, d) && x < s.Size()
    && match step
       case Trap(c, call, to, _) => c == x && call == NOTIFY && to == Ep(d) && Denial(s, c, call, to) == OK
       case Signal(src, dst) => src == x && dst == d
       case _ => false
  }

  lemma NotifiedOrPending(s: State, step: Step, x: nat, d: nat)
    requires s.Shape() && Possible(s, step) && Notifies(s, step, x, d)
    ensures var t := Apply(s, step).0; t.Sized() && t.Size() == s.Size() && s.log <= t.log && NoticeStays(s, t, d, x)
  {
    var t := Apply(s, step).0;
    assert t == MiniNotify(s, x, d).0;
    if t.log == s.log + [Notified(x, d)] { assert t.log[|s.log|..] == [Notified(x, d)]; }
  }

  /** In every run, a notification that has been sent is at every later point pending or delivered,
      unless its sender has exited in between. */
  lemma NoticeArrives(states: seq<State>, steps: seq<Step>, i: nat, j: nat, d: nat, x: nat)
    requires Run(states, steps) && i < j < |states| && states[i].Sized() && Notifies(states[i], steps[i], x, d)
    ensures states[j].Sized() && d < states[j].Size() && states[i].log <= states[j].log
    ensures NoticeStays(states[i], states[j], d, x) || ExitsBetween(steps, i + 1, j, x)
  {
    var k := i + 1;
    assert Leads(states[i], steps[i], states[i + 1]);
    NotifiedOrPending(states[i], steps[i], x, d);
    if x in states[k].privs[d].notifyPending {
      NoticeInRuns(states, steps, k, j, d, x);
    } else {
      LogGrows(states, steps, k, j);
    }
    Later(states[i].log, states[k].log, states[j].log, Notified(x, d));
  }

  lemma {:induction false} LogGrows(states: seq<State>, steps: seq<Step>, i: nat, j: nat)
    requires Run(states, steps) && i <= j < |states| && states[i].Sized()
    ensures states[j].Sized() && states[j].Size() == states[i].Size() && states[i].log <= states[j].log
    decreases j - i
  {
    if i < j {
      var h := j - 1;
      LogGrows(states, steps, i, h);
      assert Leads(states[h], steps[h], states[h + 1]);
      NoticeNotLost(states[h], steps[h]);
    }
  }
}
