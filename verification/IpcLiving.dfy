/** Nobody waits for a process that is gone: kept by the calls, and restored by exit. */
module IpcLiving {
  import opened IpcTypes
  import opened Lists
  import opened IpcSpec
  import opened IpcInv
  import opened IpcCalls
  import opened IpcExit

  lemma KeepsLiving(s: State, t: State)
    requires LivingOnly(s) && Keeps(s, t)
    ensures LivingOnly(t)
  {
    forall i, e | 0 <= i < t.Size() && 0 <= e < t.Size() && BlockedOn(t.procs[i]) == e ensures Alive(t, e) {
      assert Calmer(s.procs[i], t.procs[i]) && Calmer(s.procs[e], t.procs[e]);
      assert Alive(s, e);
    }
    forall i | 0 <= i < t.Size() && !Alive(t, i) ensures !t.procs[i].sending && !t.procs[i].receiving {
      assert Calmer(s.procs[i], t.procs[i]);
      assert !Alive(s, i);
    }
  }

  /** Only slot `c` has changed, and it waits for a living process if for anyone. */
  lemma LivingAt(s: State, t: State, c: nat)
    requires LivingOnly(s) && c < s.Size() == t.Size() && t.procs == s.procs[c := t.procs[c]]
    requires Alive(s, c) && Alive(t, c)
    requires 0 <= BlockedOn(t.procs[c]) < s.Size() ==> Alive(s, BlockedOn(t.procs[c]))
    ensures LivingOnly(t)
  {
    forall i, e | 0 <= i < t.Size() && 0 <= e < t.Size() && BlockedOn(t.procs[i]) == e ensures Alive(t, e) {
      assert Alive(s, e);
    }
    forall i | 0 <= i < t.Size() && !Alive(t, i) ensures !t.procs[i].sending && !t.procs[i].receiving {
      assert !Alive(s, i);
    }
  }

  lemma MiniSendLiving(s: State, c: nat, d: nat, msg: Option<Body>, nonBlocking: bool)
    requires s.Shape() && LivingOnly(s) && c < s.Size() && Alive(s, c) && OkEndpoint(s, d)
    ensures LivingOnly(MiniSend(s, c, d, msg, nonBlocking).0)
  {
    var t := MiniSend(s, c, d, msg, nonBlocking).0;
    if msg.Some? && !s.procs[d].noEndpoint {
      if WillReceive(s.procs[d], c) { KeepsLiving(s, t); } else if t != s { LivingAt(s, t, c); }
    }
  }

  lemma ReceiveBlockingLiving(s: State, c: nat, from: Target)
    requires s.Shape() && LivingOnly(s) && c < s.Size() && Alive(s, c) && (from.Ep? ==> Alive(s, from.e))
    ensures LivingOnly(ReceiveBlocking(s, c, from).0)
  {
    var t := ReceiveBlocking(s, c, from).0;
    if t != s {
      assert s.procs[c].sending ==> Alive(s, s.procs[c].sendTo) by {
        assert s.procs[c].Fits(s.Size());
      }
      LivingAt(s, t, c);
    }
  }

  lemma UnqueueLiving(s: State, p: nat, d: nat)
    requires s.Shape() && LivingOnly(s) && p < s.Size() && d < s.Size() && Alive(s, p)
    requires s.procs[p].sending && s.procs[p].receiving ==> s.procs[p].getFrom == Ep(s.procs[p].sendTo)
    ensures LivingOnly(Unqueue(s, p, d))
  {
    LivingAt(s, Unqueue(s, p, d), p);
  }

  lemma ReceiveQueuedLiving(s: State, c: nat, from: Target)
    requires Core(s) && LivingOnly(s) && c < s.Size() && Alive(s, c) && (from.Ep? ==> Alive(s, from.e))
    ensures LivingOnly(ReceiveQueued(s, c, from).0)
  {
    var p := FirstSender(s.queues[c], from);
    if p.Some? {
      QueuedWaits(s, c, p.value);
      var u := Unqueue(s, p.value, c);
      assert Alive(s, p.value) by {
        assert s.procs[p.value].sending;
      }
      UnqueueLiving(s, p.value, c);
      KeepsLiving(u, TakeQueued(s, c, p.value));
    } else {
      ReceiveBlockingLiving(s, c, from);
    }
  }

  lemma MiniReceiveLiving(s: State, c: nat, from: Target)
    requires Core(s) && LivingOnly(s) && c < s.Size() && Alive(s, c)
    requires (from.Ep? ==> OkEndpoint(s, from.e)) && MayReceive(s.procs[c], c, from)
    ensures LivingOnly(MiniReceive(s, c, from).0)
  {
    if from.Ep? && s.procs[from.e].noEndpoint {
    } else if s.procs[c].sending {
      ReceiveBlockingLiving(s, c, from);
    } else {
      var id := HasPending(s.privs[c].notifyPending, from, s.Size());
      if !s.procs[c].replyPend && id.Some? {
        KeepsLiving(s, TakeNotice(s, c, id.value));
      } else {
        var (t, r) := TryPending(s, c, from);
        TryPendingKeeps(s, c, from);
        KeepsLiving(s, t);
        assert Calmer(s.procs[c], t.procs[c]);
        if r == OK { KeepsLiving(t, ClearReply(t, c)); } else {
          assert from.Ep? ==> Calmer(s.procs[from.e], t.procs[from.e]);
          ReceiveQueuedLiving(t, c, from);
        }
      }
    }
  }

  /** Exit leaves nobody waiting for `rc`, so everybody waits for the living again. */
  lemma ExitLiving(s: State, rc: nat)
    requires Core(s) && LivingOnly(s) && rc < s.Size() && rc != ASYNCM && ClearEndpoint(s, rc).1 == OK
    ensures LivingOnly(ClearEndpoint(s, rc).0)
  {
    var t := ClearEndpoint(s, rc).0;
    ExitExact(s, rc);
    DepartedLiving(s, t, rc);
  }

  lemma DepartedLiving(s: State, t: State, rc: nat)
    requires s.Shape() && t.Shape() && t.Size() == s.Size() && rc < s.Size()
    requires LivingOnly(s) && Departed(s, t, rc)
    requires forall p :: 0 <= p < s.Size() ==> BlockedOn(t.procs[p]) != rc
    ensures LivingOnly(t)
  {
    forall p | 0 <= p < s.Size() && p != rc ensures Alive(t, p) == Alive(s, p) {
      if BlockedOn(s.procs[p]) != rc { assert AtMostNotified(s.procs[p], t.procs[p]); }
    }
    forall i, e | 0 <= i < t.Size() && 0 <= e < t.Size() && BlockedOn(t.procs[i]) == e ensures Alive(t, e) {
      assert i != rc && BlockedOn(s.procs[i]) != rc && AtMostNotified(s.procs[i], t.procs[i]);
      assert Alive(s, e);
    }
    forall i | 0 <= i < t.Size() && !Alive(t, i) ensures !t.procs[i].sending && !t.procs[i].receiving {
      if i != rc && BlockedOn(s.procs[i]) != rc {
        assert AtMostNotified(s.procs[i], t.procs[i]);
        assert !Alive(s, i);
      }
    }
  }
}
