/** The main results about message passing, for every run and every state that satisfies the
    invariant. */
module IpcTheorems {
  import opened IpcTypes
  import opened WaitGraph
  import opened Lists
  import opened IpcSpec
  import opened IpcInv
  import opened IpcCalls
  import opened IpcExit
  import opened IpcHistory
  import opened IpcAsync
  import opened IpcPending
  import opened IpcSteps
  import opened IpcRun
  import opened IpcOrder

  // ---------------------------------------------------------------- over whole runs

  /** At no point of any run does a process wait for itself, directly or through others, and at
      no point does a process wait on the queue of one that would take its message. */
  lemma NoCycleNoMissedRendezvous(states: seq<State>, steps: seq<Step>, k: nat)
    requires Run(states, steps) && k < |states|
    ensures var s := states[k];
      && s.Shape() && Acyclic(Waits(s))
      && (forall d, x :: 0 <= d < s.Size() && x in s.queues[d] ==> !WillReceive(s.procs[d], x))
      && (forall d, x :: 0 <= d < s.Size() && 0 <= x < s.Size() ==>
            (x in s.queues[d] <==> s.procs[x].sending && s.procs[x].sendTo == d))
      && (forall d :: 0 <= d < s.Size() ==> NoDuplicates(s.queues[d]))
  {
    RunsKeep(states, steps, k);
  }

  /** At every point of every run, what a process has sent is what has been settled for it, in
      order, followed by the one message it is blocked with; settled means put in the buffer of its
      destination, or given up because one of the two exited; and a buffer holds the message that
      was last put there and not copied out since. */
  lemma MessagesConserved(states: seq<State>, steps: seq<Step>, k: nat, p: nat)
    requires Run(states, steps) && k < |states| && p < states[k].Size()
    ensures var s := states[k];
      && Posted(s.log, p) == Settled(s.log, p) + InFlight(s.procs[p])
      && (forall m :: 0 <= m < |s.log| && s.log[m].Cancelled? && s.log[m].src == p ==>
            ExitsBefore(steps, k, p) || ExitsBefore(steps, k, s.log[m].dst))
      && Box(s.log, p) == (if s.procs[p].deliverMsg then Some(s.procs[p].delivered) else None)
  {
    RunsKeep(states, steps, k);
    var s := states[k];
    forall m | 0 <= m < |s.log| && s.log[m].Cancelled? && s.log[m].src == p
      ensures ExitsBefore(steps, k, p) || ExitsBefore(steps, k, s.log[m].dst)
    {
      GivenUpByExit(states, steps, k, m);
    }
  }

  /** At every point of every run, no entry of any table of asynchronous sends has been delivered
      twice by one SENDA; and from an entry of the latest table exactly the message handed in has reached
      the destination named if it was handed in unfinished and is now marked done with OK, and nothing
      otherwise. */
  lemma AsyncAtMostOnce(states: seq<State>, steps: seq<Step>, k: nat, src: nat, gen: nat, idx: nat)
    requires Run(states, steps) && k < |states| && src < states[k].Size() && states[k].Sized()
    ensures var s := states[k]; var v := s.privs[src];
      && |Deliveries(s.log, src, gen, idx)| <= 1
      && (gen == v.gen && idx < |v.table| ==>
            (idx < |v.submitted| && Deliveries(s.log, src, gen, idx) == Due(v.submitted[idx], v.table[idx])))
      && (gen == v.gen && idx >= |v.table| ==> Deliveries(s.log, src, gen, idx) == [])
  {
    RunsKeep(states, steps, k);
    var s := states[k];
    assert SlotTruthful(s, src);
    if gen == s.privs[src].gen && idx < |s.privs[src].table| {
      assert Truthful(s.privs[src].submitted[idx], s.privs[src].table[idx], Deliveries(s.log, src, gen, idx));
    }
  }

  /** What an entry handed in as `submitted` has sent when the table shows it as `now`. */
  function Due(submitted: Entry, now: Entry): seq<Letter> {
    if submitted.Unfinished() && now.done && now.result == OK then [Letter(submitted.dst, submitted.body)] else []
  }

  /** At every point of every run, a registered table holds no unfinished entry whose destination
      does not know of it: the bit of the sender is set there. */
  lemma AsyncNotForgotten(states: seq<State>, steps: seq<Step>, k: nat, src: nat, i: nat)
    requires Run(states, steps) && k < |states| && states[k].Sized() && src < states[k].Size()
    requires states[k].privs[src].registered && i < |states[k].privs[src].table|
    requires states[k].privs[src].table[i].Unfinished()
    ensures var s := states[k]; var d := s.privs[src].table[i].dst;
      0 <= d < s.Size() && src in s.privs[d].asynPending && d in s.privs[src].ipcTo
  {
    RunsKeep(states, steps, k);
    assert Remembered(states[k], src, states[k].privs[src].table[i]);
    assert MaySenda(states[k], src, states[k].privs[src].table[i].dst);
  }

  /** Exit always finishes, from every state that satisfies the invariant, and cleans up exactly. */
  lemma ExitCleansUp(s: State, rc: nat)
    requires Inv(s) && Enabled(s, Exit(rc))
    ensures ClearEndpoint(s, rc).1 == OK && Inv(ClearEndpoint(s, rc).0) && CleanedUp(s, ClearEndpoint(s, rc).0, rc)
  {
    ExitInv(s, rc);
    ExitCleans(s, rc);
  }

  /** Exit has left everybody as it should, nobody waits for `rc`, its queue is empty and it is on no queue. */
  ghost predicate CleanedUp(s: State, t: State, rc: nat)
    requires s.Shape() && t.Shape() && t.Size() == s.Size() && rc < s.Size()
  {
    && Departed(s, t, rc)
    && (forall p :: 0 <= p < s.Size() ==> BlockedOn(t.procs[p]) != rc)
    && t.queues[rc] == [] && (forall d :: 0 <= d < s.Size() ==> rc !in t.queues[d])
  }

  lemma ExitCleans(s: State, rc: nat)
    requires Core(s) && LivingOnly(s) && AsyncInv(s) && rc < s.Size() && rc != ASYNCM
    ensures ClearEndpoint(s, rc).1 == OK && CleanedUp(s, ClearEndpoint(s, rc).0, rc)
  {
    ExitAsync(s, rc);
    ExitExact(s, rc);
  }

  lemma ExitInv(s: State, rc: nat)
    requires Inv(s) && Enabled(s, Exit(rc))
    ensures Inv(ClearEndpoint(s, rc).0)
  {
    StepKeeps(s, Exit(rc));
  }

  /** At every point of every run, the processes that a walk of deadlock() meets are not free and leave room
      in its array for the caller, and whoever is on a caller queue is alive: the assertions on them hold. */
  lemma WalkersAndQueuedAlive(states: seq<State>, steps: seq<Step>, k: nat)
    requires Run(states, steps) && k < |states|
    ensures var s := states[k];
      && (forall path, c :: IsPath(Waits(s), path) && Alive(s, path[0]) && 0 <= c < s.Size() && c !in path ==>
            |path| < s.Size() && forall i :: 0 <= i < |path| ==> Alive(s, path[i]))
      && (forall d, x :: 0 <= d < |s.queues| && x in s.queues[d] ==> Alive(s, x))
  {
    RunsKeep(states, steps, k);
    var s := states[k];
    forall path, c | IsPath(Waits(s), path) && Alive(s, path[0]) && 0 <= c < s.Size() && c !in path
      ensures |path| < s.Size() && forall i :: 0 <= i < |path| ==> Alive(s, path[i])
    {
      RoomForCaller(Waits(s), path, c);
      forall i | 0 <= i < |path| ensures Alive(s, path[i]) { MetAlive(s, path, i); }
    }
    forall d, x | 0 <= d < |s.queues| && x in s.queues[d] ensures Alive(s, x) { assert s.procs[x].sending; }
  }

  lemma MetAlive(s: State, path: seq<int>, i: nat)
    requires LivingOnly(s) && IsPath(Waits(s), path) && Alive(s, path[0]) && i < |path|
    ensures Alive(s, path[i])
  {
    if i > 0 {
      var h := i - 1;
      assert Waits(s)[path[h]] == path[h + 1];
      assert BlockedOn(s.procs[path[h]]) == path[i];
    }
  }

  // ---------------------------------------------------------------- SENDREC

  /** At every point of every run, a process that is blocked both ways names the same partner for
      both, and nobody who waits has an undelivered message: the assertions before a delivery hold. */
  lemma SendrecCoherent(states: seq<State>, steps: seq<Step>, k: nat, p: nat)
    requires Run(states, steps) && k < |states| && p < states[k].Size()
    ensures var v := states[k].procs[p];
      && (v.sending && v.receiving ==> v.getFrom == Ep(v.sendTo) && v.replyPend)
      && (v.sending || v.receiving ==> !v.deliverMsg)
  {
    RunsKeep(states, steps, k);
    assert Local(p, states[k].procs[p], states[k].privs[p]);
  }

  /** Once its send half has returned OK, the receive half of SENDREC cannot fail. */
  lemma SecondHalfSucceeds(s: State, c: nat, d: nat, msg: Option<Body>)
    requires Core(s) && c < s.Size() && d < s.Size() && c != d && Idle(s.procs[c])
    requires MiniSend(SetReply(s, c), c, d, msg, false).1 == OK
    ensures MiniReceive(MiniSend(SetReply(s, c), c, d, msg, false).0, c, Ep(d)).1 == OK
  {
    var u := SetReply(s, c);
    SetReplyKeeps(s, c);
    MiniSendKeeps(u, c, d, msg, false);
    HowItWent(u, c, d, msg);
    var t := MiniSend(u, c, d, msg, false).0;
    if t.procs[c].sending { BlockedHalf(t, c, d); } else { FreeHalf(t, c, d); }
  }

  /** A send that has returned OK has blocked, or its receiver does not wait any more. */
  lemma HowItWent(s: State, c: nat, d: nat, msg: Option<Body>)
    requires s.Shape() && c < s.Size() && d < s.Size() && c != d && Idle(s.procs[c]) && s.procs[c].replyPend
    requires MiniSend(s, c, d, msg, false).1 == OK
    ensures var t := MiniSend(s, c, d, msg, false).0;
      && !t.procs[d].noEndpoint
      && (t.procs[c].sending ==> t.procs[c].sendTo == d)
      && (!t.procs[c].sending ==> Idle(t.procs[c]) && t.procs[c].replyPend && !t.procs[d].sending && !t.procs[d].receiving)
  {
  }

  /** The send half has blocked. */
  lemma BlockedHalf(t: State, c: nat, d: nat)
    requires Core(t) && c < t.Size() && d < t.Size() && c != d
    requires t.procs[c].sending && t.procs[c].sendTo == d && !t.procs[d].noEndpoint
    ensures MiniReceive(t, c, Ep(d)).1 == OK
  {
    ReceiveDeadlockExact(t, c, d);
    NoWayBack(Waits(t), c, d);
  }

  lemma Longer(g: Graph, p: seq<int>, d: int)
    requires IsPath(g, p) && 0 <= d < |g| && g[p[|p| - 1]] == d
    ensures IsPath(g, p + [d])
  {
    var q := p + [d];
    forall i | 0 <= i < |q| - 1 ensures g[q[i]] == q[i + 1] {}
  }

  lemma NoWayBack(g: Graph, c: nat, d: nat)
    requires Acyclic(g) && c < |g| && d < |g| && g[c] == d
    ensures !Reaches(g, d, c)
  {
    if p :| PathBetween(g, p, d, c) {
      Longer(g, p, d);
      assert false;
    }
  }

  /** The send half has met its receiver, which does not wait any more. */
  lemma FreeHalf(t: State, c: nat, d: nat)
    requires Core(t) && c < t.Size() && d < t.Size() && c != d
    requires Idle(t.procs[c]) && t.procs[c].replyPend
    requires !t.procs[d].sending && !t.procs[d].receiving && !t.procs[d].noEndpoint
    ensures MiniReceive(t, c, Ep(d)).1 == OK
  {
    var (u, r) := TryPending(t, c, Ep(d));
    assert Calmer(t.procs[d], u.procs[d]);
    if r != OK && FirstSender(u.queues[c], Ep(d)).None? {
      assert Waits(u)[d] == -1;
      assert Deadlock(u, ByReceive, c, Ep(d)).Free?;
    }
  }

  // ---------------------------------------------------------------- receiving from oneself

  lemma SelfBlocks(s: State, c: nat)
    requires Core(s) && c < s.Size() && Idle(s.procs[c]) && !s.procs[c].noEndpoint && !s.procs[c].replyPend
    requires c !in s.privs[c].notifyPending
    ensures MiniReceive(s, c, Ep(c)) == (BlockReceive(s, c, Ep(c)), OK)
  {
    NothingFromSelf(s, c);
    assert Waits(s)[c] == -1;
  }

  lemma NothingFromSelf(s: State, c: nat)
    requires Core(s) && c < s.Size()
    ensures TryPending(s, c, Ep(c)) == (s, ESRCH) && FirstSender(s.queues[c], Ep(c)).None?
  {
    OnlyFrom(s.queues[c], c);
    assert c !in s.queues[c] && Local(c, s.procs[c], s.privs[c]);
  }

  lemma SelfLoop(s: State, c: nat)
    requires s.Sized() && c < s.Size() && !s.procs[c].sending
    ensures !Acyclic(Waits(BlockReceive(s, c, Ep(c))))
  {
    assert IsPath(Waits(BlockReceive(s, c, Ep(c))), [c, c]);
  }

  /** RECEIVE keeps the wait-for graph acyclic unless the caller names itself, may use RECEIVE and
      has no notification from itself pending; then it waits for itself, which nothing in the
      code prevents. */
  lemma SelfReceive(s: State, c: nat, to: Target, msg: Option<Body>)
    requires Core(s) && MayTrap(s, c)
    ensures Acyclic(Waits(DoSyncIpc(s, c, RECEIVE, to, msg).0)) <==> !SelfWait(s, Trap(c, RECEIVE, to, msg))
  {
    if SelfWait(s, Trap(c, RECEIVE, to, msg)) {
      SelfCycle(s, c, msg);
    } else {
      TrapCore(s, c, RECEIVE, to, msg);
    }
  }

  lemma SelfCycle(s: State, c: nat, msg: Option<Body>)
    requires Core(s) && MayTrap(s, c) && SelfWait(s, Trap(c, RECEIVE, Ep(c), msg))
    ensures !Acyclic(Waits(DoSyncIpc(s, c, RECEIVE, Ep(c), msg).0)) && DoSyncIpc(s, c, RECEIVE, Ep(c), msg).1 == OK
  {
    var u := ClearReply(s, c);
    ClearReplyKeeps(s, c);
    SelfBlocks(u, c);
    SelfLoop(u, c);
  }

  /** Whatever is asked of the kernel, the invariant holds afterwards exactly if the call does not make
      its caller wait for itself; and every call returns. */
  lemma KeptExactly(s: State, step: Step)
    requires Inv(s) && Possible(s, step)
    ensures Inv(Apply(s, step).0) <==> !SelfWait(s, step)
    ensures Apply(s, step).1 != Hung
  {
    if SelfWait(s, step) { SelfCycle(s, step.c, step.msg); } else { StepKeeps(s, step); }
  }

  lemma {:induction false} StaysAtSelf(g: Graph, c: nat, n: nat)
    requires c < |g| && g[c] == c
    ensures Spot(g, c, n) == c
  {
    if n > 0 { StaysAtSelf(g, c, n - 1); }
  }

  /** Once a process waits for itself, every walk of deadlock() that gets to it never ends: neither for
      one who would wait for it, nor for one who would wait for those that wait for it. */
  lemma WalkIntoSelf(g: Graph, x: int, c: nat, exempt: bool, path: seq<int>)
    requires IsPath(g, path) && c < |g| && g[c] == c && x !in path && path[|path| - 1] == c
    ensures Follow(g, x, exempt, path).Endless? && forall n: nat :: Going(g, x, path[0], n)
  {
    var k := |path| - 1;
    SpotOnPath(g, path, k);
    forall n: nat ensures Going(g, x, path[0], n) {
      if n <= k { SpotOnPath(g, path, n); } else { SpotFrom(g, path[0], k, n - k); StaysAtSelf(g, c, n - k); }
    }
    EndlessExact(g, x, exempt, path);
  }

  lemma {:induction false} SpotFrom(g: Graph, x: int, k: nat, n: nat)
    ensures Spot(g, x, k + n) == Spot(g, Spot(g, x, k), n)
  {
    if n > 0 { SpotFrom(g, x, k, n - 1); }
  }

  /** An initial state in which slot 5 may RECEIVE from itself, and does. */
  lemma SelfReceiveHappens() returns (s: State)
    ensures Initial(s) && MayTrap(s, 5)
    ensures !Acyclic(Waits(DoSyncIpc(s, 5, RECEIVE, Ep(5), None).0))
  {
    var p := Proc(false, false, false, false, {}, false, false, ANY, 0, Notification, Message(0, Notification), OK);
    var v := Priv({}, {}, {}, {RECEIVE}, true, [], false, [], 0);
    s := State(seq(6, _ => p), seq(6, _ => v), seq(6, _ => []), []);
    InitialInv(s);
    SelfReceive(s, 5, Ep(5), None);
  }
}
