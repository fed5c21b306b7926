/** Exit of a process: clear_endpoint and its helpers keep the invariant and leave no trace of
    the process. */
module IpcExit {
  import opened IpcTypes
  import opened WaitGraph
  import opened Lists
  import opened IpcSpec
  import opened IpcInv
  import opened IpcCalls

  lemma StopReceivingKeeps(s: State, p: nat)
    requires Core(s) && p < s.Size()
    ensures Core(StopReceiving(s, p))
  {
    KeepsWaits(s, StopReceiving(s, p));
    LocalAt(s, StopReceiving(s, p), p);
  }

  lemma ClearIpcKeeps(s: State, p: nat)
    requires Core(s) && p < s.Size()
    ensures Core(ClearIpc(s, p))
  {
    var v := s.procs[p];
    if v.sending {
      UnqueueKeeps(s, p, v.sendTo);
      NoteKeeps(Unqueue(s, p, v.sendTo), [Cancelled(p, v.sendTo, v.sendMsg)]);
    }
    StopReceivingKeeps(StopSending(s, p), p);
  }

  /** The bit clearing of one round of clear_ipc_refs. */
  function DropBits(s: State, rc: nat, i: nat, code: Code): (t: State)
    requires s.Sized() && rc < s.Size() && i < s.Size()
    ensures Keeps(s, t)
  {
    var v := s.privs[i];
    var t := s.WithPriv(i, v.(notifyPending := v.notifyPending - {rc}, asynPending := v.asynPending - {rc}));
    if BlockedOn(t.procs[i]) == rc then t.With(i, t.procs[i].(retreg := code)) else t
  }

  lemma ClearRefIs(s: State, rc: nat, i: nat, code: Code)
    requires s.Shape() && rc < s.Size() && i < s.Size() && !s.procs[i].slotFree
    ensures var t := DropBits(s, rc, i, code);
      ClearRef(s, rc, i, code) == if BlockedOn(s.procs[i]) == rc then ClearIpc(t, i) else t
  {
  }

  lemma DropBitsKeeps(s: State, rc: nat, i: nat, code: Code)
    requires Core(s) && rc < s.Size() && i < s.Size()
    ensures Core(DropBits(s, rc, i, code))
  {
    KeepsWaits(s, DropBits(s, rc, i, code));
    LocalAt(s, DropBits(s, rc, i, code), i);
  }

  lemma ClearRefKeeps(s: State, rc: nat, i: nat, code: Code)
    requires Core(s) && rc < s.Size() && i < s.Size()
    ensures Core(ClearRef(s, rc, i, code))
  {
    if !s.procs[i].slotFree {
      ClearRefIs(s, rc, i, code);
      DropBitsKeeps(s, rc, i, code);
      ClearIpcKeeps(DropBits(s, rc, i, code), i);
    }
  }

  lemma {:induction false} ClearRefsKeeps(s: State, rc: nat, i: nat, code: Code)
    requires Core(s) && rc < s.Size() && i <= s.Size()
    ensures Core(ClearRefs(s, rc, i, code))
    decreases s.Size() - i
  {
    if i < s.Size() {
      ClearRefKeeps(s, rc, i, code);
      ClearRefsKeeps(ClearRef(s, rc, i, code), rc, i + 1, code);
    }
  }

  lemma {:induction false} CancelAllKeeps(s: State, rc: nat)
    requires Core(s) && rc < s.Size()
    ensures Core(CancelAll(s, rc).0)
    decreases |s.privs[rc].asynPending|
  {
    var src := FirstFrom(s.privs[rc].asynPending, 0, s.Size());
    if src.Some? && s.privs[src.value].sysProc {
      var t := CancelAsync(s, src.value, rc);
      CancelAsyncKeeps(s, src.value, rc);
      assert t.privs[rc].asynPending < s.privs[rc].asynPending;
      CancelAllKeeps(t, rc);
    }
  }

  lemma ClearIpcRefsKeeps(s: State, rc: nat, code: Code)
    requires Core(s) && rc < s.Size()
    ensures Core(ClearIpcRefs(s, rc, code).0)
  {
    CancelAllKeeps(s, rc);
    ClearRefsKeeps(CancelAll(s, rc).0, rc, 0, code);
  }

  lemma RetireKeeps(s: State, rc: nat)
    requires Core(s) && rc < s.Size()
    ensures Core(Retire(s, rc))
  {
    assert Waits(Retire(s, rc)) == Waits(s);
  }

  lemma KillKeeps(s: State, rc: nat)
    requires Core(s) && rc < s.Size()
    ensures Core(Kill(s, rc))
  {
    var t := Retire(s, rc);
    RetireKeeps(s, rc);
    RegisterLocal(t, rc, false);
    KeepsWaits(t, Register(t, rc, false));
  }

  lemma ClearEndpointKeeps(s: State, rc: nat)
    requires Core(s) && rc < s.Size()
    ensures Core(ClearEndpoint(s, rc).0)
  {
    KillKeeps(s, rc);
    ClearIpcKeeps(Kill(s, rc), rc);
    ClearIpcRefsKeeps(ClearIpc(Kill(s, rc), rc), rc, EDEADSRCDST);
  }

  // ---------------------------------------------------------------- what exit does exactly

  /** How clear_ipc_refs leaves a process that was `p` before. */
  predicate Released(p: Proc, q: Proc, rc: nat, code: Code) {
    if BlockedOn(p) == rc then q == p.(sending := false, receiving := false, retreg := code)
    else q == p
  }

  /** Slot `i` is what one round of the table loop changes. */
  ghost predicate OneCleared(s: State, t: State, rc: nat, i: nat, code: Code)
    requires s.Shape() && t.Shape() && t.Size() == s.Size() && i < s.Size()
  {
    && t.procs == s.procs[i := t.procs[i]] && Released(s.procs[i], t.procs[i], rc, code)
    && t.privs == s.privs[i := t.privs[i]]
    && (!s.procs[i].slotFree ==> rc !in t.privs[i].notifyPending && rc !in t.privs[i].asynPending)
    && (forall d :: 0 <= d < s.Size() && d != rc ==> t.queues[d] == s.queues[d])
  }

  /** Nobody waits in a free slot. */
  ghost predicate FreeIdle(s: State) {
    forall p :: 0 <= p < s.Size() && s.procs[p].slotFree ==> !s.procs[p].sending && !s.procs[p].receiving
  }

  lemma ClearRefExact(s: State, rc: nat, i: nat, code: Code)
    requires s.Shape() && rc < s.Size() && i < s.Size() && FreeIdle(s)
    ensures OneCleared(s, ClearRef(s, rc, i, code), rc, i, code)
  {
  }

  lemma OneClearedIdle(s: State, t: State, rc: nat, i: nat, code: Code)
    requires s.Shape() && t.Shape() && t.Size() == s.Size() && i < s.Size() && FreeIdle(s) && OneCleared(s, t, rc, i, code)
    ensures FreeIdle(t)
  {
  }

  /** What the table loop of clear_ipc_refs does from slot `i` on. */
  ghost predicate RefsCleared(s: State, t: State, rc: nat, i: nat, code: Code)
    requires s.Shape() && t.Shape() && t.Size() == s.Size() && i <= s.Size()
  {
    && (forall p :: 0 <= p < i ==> t.procs[p] == s.procs[p] && t.privs[p] == s.privs[p])
    && (forall p :: i <= p < s.Size() ==> Released(s.procs[p], t.procs[p], rc, code))
    && (forall p :: i <= p < s.Size() && !s.procs[p].slotFree ==>
          rc !in t.privs[p].notifyPending && rc !in t.privs[p].asynPending)
    && (forall d :: 0 <= d < s.Size() && d != rc ==> t.queues[d] == s.queues[d])
  }

  /** One round, then the others. */
  lemma FirstRound(s: State, u: State, t: State, rc: nat, i: nat, code: Code)
    requires s.Shape() && u.Shape() && t.Shape() && t.Size() == u.Size() == s.Size() && i < s.Size()
    requires OneCleared(s, u, rc, i, code) && RefsCleared(u, t, rc, i + 1, code)
    ensures RefsCleared(s, t, rc, i, code)
  {
  }

  lemma {:induction false} ClearRefsExact(s: State, rc: nat, i: nat, code: Code)
    requires s.Shape() && rc < s.Size() && i <= s.Size() && FreeIdle(s)
    ensures RefsCleared(s, ClearRefs(s, rc, i, code), rc, i, code)
    decreases s.Size() - i
  {
    if i < s.Size() {
      var u := ClearRef(s, rc, i, code);
      ClearRefExact(s, rc, i, code);
      OneClearedIdle(s, u, rc, i, code);
      ClearRefsExact(u, rc, i + 1, code);
      FirstRound(s, u, ClearRefs(u, rc, i + 1, code), rc, i, code);
    }
  }

  /** Cancelling asynchronous sends to `rc` changes a process only by a notification from ASYNCM
      that the process waits for. */
  predicate AtMostNotified(p: Proc, q: Proc) {
    && Calmer(p, q) && q.retreg == p.retreg && q.stops == p.stops
    && (!WillReceive(p, ASYNCM) ==> q == p)
  }

  lemma CancelAsyncSpares(s: State, src: nat, d: nat)
    requires s.Sized() && src < s.Size() && d < s.Size()
    ensures var t := CancelAsync(s, src, d);
      forall p :: 0 <= p < s.Size() ==> AtMostNotified(s.procs[p], t.procs[p])
  {
    forall p | 0 <= p < s.Size() ensures AtMostNotified(s.procs[p], CancelAsync(s, src, d).procs[p]) {
      CancelAsyncSparesOne(s, src, d, p);
    }
  }

  lemma CancelAsyncSparesOne(s: State, src: nat, d: nat, p: nat)
    requires s.Sized() && src < s.Size() && d < s.Size() && p < s.Size()
    ensures AtMostNotified(s.procs[p], CancelAsync(s, src, d).procs[p])
  {
  }

  lemma {:induction false} CancelAllSpares(s: State, rc: nat)
    requires s.Shape() && rc < s.Size()
    ensures var t := CancelAll(s, rc).0;
      forall p :: 0 <= p < s.Size() ==> AtMostNotified(s.procs[p], t.procs[p])
    decreases |s.privs[rc].asynPending|
  {
    var src := FirstFrom(s.privs[rc].asynPending, 0, s.Size());
    if src.Some? && s.privs[src.value].sysProc {
      var t := CancelAsync(s, src.value, rc);
      assert t.privs[rc].asynPending < s.privs[rc].asynPending;
      CancelAsyncSpares(s, src.value, rc);
      CancelAllSpares(t, rc);
    }
  }

  /** The state in which clear_endpoint starts the table loop of clear_ipc_refs. */
  function BeforeRefs(s: State, rc: nat): State
    requires s.Shape() && rc < s.Size()
  {
    CancelAll(ClearIpc(Kill(s, rc), rc), rc).0
  }

  /** What has happened until then. */
  ghost predicate Ready(s: State, t: State, rc: nat)
    requires s.Shape() && t.Shape() && t.Size() == s.Size() && rc < s.Size()
  {
    && t.procs[rc].noEndpoint && !t.procs[rc].sending && !t.procs[rc].receiving
    && (forall p :: 0 <= p < s.Size() && p != rc ==> AtMostNotified(s.procs[p], t.procs[p]))
    && (forall d :: 0 <= d < s.Size() ==> t.queues[d] == Without(s.queues[d], rc))
    && t.procs[rc].slotFree == s.procs[rc].slotFree
  }

  lemma BeforeRefsExact(s: State, rc: nat)
    requires s.Shape() && Queues(s) && rc < s.Size()
    ensures Ready(s, BeforeRefs(s, rc), rc)
  {
    var u := ClearIpc(Kill(s, rc), rc);
    CancelAllSpares(u, rc);
    forall d | 0 <= d < s.Size() ensures u.queues[d] == Without(s.queues[d], rc) {
      if rc !in s.queues[d] { WithoutAbsent(s.queues[d], rc); }
    }
  }

  /** How exit leaves the table. Of the others, those that waited for `rc` are released with
      EDEADSRCDST and nothing else of theirs changes; the rest may at most have been given the
      notification that an asynchronous send of theirs is finished. */
  ghost predicate Departed(s: State, t: State, rc: nat)
    requires s.Shape() && t.Shape() && t.Size() == s.Size() && rc < s.Size()
  {
    && t.procs[rc].noEndpoint && !t.procs[rc].sending && !t.procs[rc].receiving
    && (forall d :: 0 <= d < s.Size() && d != rc ==> t.queues[d] == Without(s.queues[d], rc))
    && (forall p :: 0 <= p < s.Size() && p != rc && BlockedOn(s.procs[p]) == rc ==>
          t.procs[p] == s.procs[p].(sending := false, receiving := false, retreg := EDEADSRCDST))
    && (forall p :: 0 <= p < s.Size() && p != rc && BlockedOn(s.procs[p]) != rc ==>
          AtMostNotified(s.procs[p], t.procs[p]))
    && (forall p :: 0 <= p < s.Size() && !s.procs[p].slotFree ==>
          rc !in t.privs[p].notifyPending && rc !in t.privs[p].asynPending)
  }

  lemma InTwoSteps(s: State, u: State, t: State, rc: nat)
    requires s.Shape() && u.Shape() && t.Shape() && t.Size() == u.Size() == s.Size() && rc < s.Size()
    requires rc != ASYNCM && Ready(s, u, rc) && RefsCleared(u, t, rc, 0, EDEADSRCDST)
    ensures Departed(s, t, rc)
  {
    forall p | 0 <= p < s.Size() && p != rc
      ensures if BlockedOn(s.procs[p]) == rc
        then t.procs[p] == s.procs[p].(sending := false, receiving := false, retreg := EDEADSRCDST)
        else AtMostNotified(s.procs[p], t.procs[p])
    {
      assert AtMostNotified(s.procs[p], u.procs[p]);
      assert Released(u.procs[p], t.procs[p], rc, EDEADSRCDST);
    }
  }

  lemma ExitDeparts(s: State, rc: nat)
    requires s.Shape() && Queues(s) && LivingOnly(s) && rc < s.Size() && rc != ASYNCM
    requires ClearEndpoint(s, rc).1 == OK
    ensures Departed(s, ClearEndpoint(s, rc).0, rc)
  {
    var u := BeforeRefs(s, rc);
    BeforeRefsExact(s, rc);
    forall p | 0 <= p < s.Size() && u.procs[p].slotFree ensures !u.procs[p].sending && !u.procs[p].receiving {
      assert p != rc ==> AtMostNotified(s.procs[p], u.procs[p]);
      assert !Alive(s, p);
    }
    ClearRefsExact(u, rc, 0, EDEADSRCDST);
    InTwoSteps(s, u, ClearRefs(u, rc, 0, EDEADSRCDST), rc);
  }

  lemma ExitQueues(s: State, rc: nat)
    requires Core(s) && rc < s.Size()
    ensures var t := ClearEndpoint(s, rc).0; t.Shape() && Queues(t)
  {
    ClearEndpointKeeps(s, rc);
  }

  lemma QueuedWaits(t: State, d: nat, x: nat)
    requires t.Shape() && Queues(t) && d < t.Size() && x in t.queues[d]
    ensures BlockedOn(t.procs[x]) == d
  {
  }

  /** Nobody is left waiting for a process that has departed. */
  lemma NobodyWaits(s: State, t: State, rc: nat)
    requires s.Shape() && t.Shape() && t.Size() == s.Size() && rc < s.Size()
    requires Queues(t) && Departed(s, t, rc)
    ensures forall p :: 0 <= p < s.Size() ==> BlockedOn(t.procs[p]) != rc
    ensures t.queues[rc] == [] && forall d :: 0 <= d < s.Size() ==> rc !in t.queues[d]
  {
    forall p | 0 <= p < s.Size() ensures BlockedOn(t.procs[p]) != rc {
      if p != rc && BlockedOn(s.procs[p]) != rc { assert AtMostNotified(s.procs[p], t.procs[p]); }
    }
    if t.queues[rc] != [] {
      QueuedWaits(t, rc, Member(t.queues[rc]));
      assert false;
    }
  }

  /** Exit cleans up exactly: nobody waits for `rc`, its queue is empty, it is on no queue, and
      the other queues have lost at most `rc`. */
  lemma ExitExact(s: State, rc: nat)
    requires Core(s) && LivingOnly(s) && rc < s.Size() && rc != ASYNCM
    requires ClearEndpoint(s, rc).1 == OK
    ensures var t := ClearEndpoint(s, rc).0;
      && Departed(s, t, rc)
      && (forall p :: 0 <= p < s.Size() ==> BlockedOn(t.procs[p]) != rc)
      && t.queues[rc] == [] && (forall d :: 0 <= d < s.Size() ==> rc !in t.queues[d])
  {
    ExitDeparts(s, rc);
    ExitQueues(s, rc);
    NobodyWaits(s, ClearEndpoint(s, rc).0, rc);
  }

  lemma {:induction false} CancelEnds(s: State, rc: nat)
    requires s.Shape() && rc < s.Size()
    ensures CancelAll(s, rc).1 == OK || CancelAll(s, rc).1 == Hung
    decreases |s.privs[rc].asynPending|
  {
    var src := FirstFrom(s.privs[rc].asynPending, 0, s.Size());
    if src.Some? && s.privs[src.value].sysProc {
      var t := CancelAsync(s, src.value, rc);
      assert t.privs[rc].asynPending < s.privs[rc].asynPending;
      CancelEnds(t, rc);
    }
  }

  lemma ExitResult(s: State, rc: nat)
    requires s.Shape() && rc < s.Size()
    ensures ClearEndpoint(s, rc).1 == OK || ClearEndpoint(s, rc).1 == Hung
  {
    CancelEnds(ClearIpc(Kill(s, rc), rc), rc);
  }
}
