/** How the assertion about stale links comes to stop the kernel. */
module IpcStop {
  import opened IpcTypes
  import opened WaitGraph
  import opened Lists
  import opened StaleLinks
  import opened IpcSpec
  import opened IpcInv
  import opened IpcCalls
  import opened IpcExit
  import opened IpcSteps
  import opened IpcRun
  import opened IpcTheorems
  import opened IpcKernel

  // ---------------------------------------------------------------- rights do not change

  ghost predicate SameRights(s: State, t: State) {
    && s.Sized() && t.Sized() && t.Size() == s.Size()
    && forall i :: 0 <= i < s.Size() ==> t.privs[i].ipcTo == s.privs[i].ipcTo && t.privs[i].traps == s.privs[i].traps
  }

  lemma NotifyDoneRights(s: State, src: nat, notice: bool)
    requires s.Sized() && src < s.Size()
    ensures SameRights(s, NotifyDone(s, src, notice))
  {
  }

  lemma FinishCancelRights(s: State, src: nat, d: nat)
    requires s.Sized() && src < s.Size()
    ensures SameRights(s, FinishCancel(s, src, d))
  {
    var t := StoreCancel(s, src, d);
    var u := NotifyDone(t, src, CancelNotice(s.privs[src].table, d));
    NotifyDoneRights(t, src, CancelNotice(s.privs[src].table, d));
    assert SameRights(u, FinishCancel(s, src, d));
  }

  lemma CancelAsyncRights(s: State, src: nat, d: nat)
    requires s.Sized() && src < s.Size() && d < s.Size()
    ensures SameRights(s, CancelAsync(s, src, d))
  {
    var t := UnsetAsyn(Register(s, src, false), d, src);
    assert SameRights(s, t);
    FinishCancelRights(t, src, d);
  }

  lemma {:induction false} CancelAllRights(s: State, rc: nat)
    requires s.Shape() && rc < s.Size()
    ensures SameRights(s, CancelAll(s, rc).0)
    decreases |s.privs[rc].asynPending|
  {
    var src := FirstFrom(s.privs[rc].asynPending, 0, s.Size());
    if src.Some? && s.privs[src.value].sysProc {
      var t := CancelAsync(s, src.value, rc);
      assert t.privs[rc].asynPending < s.privs[rc].asynPending;
      CancelAsyncRights(s, src.value, rc);
      CancelAllRights(t, rc);
    }
  }

  lemma ClearRefRights(s: State, rc: nat, i: nat, code: Code)
    requires s.Shape() && rc < s.Size() && i < s.Size()
    ensures SameRights(s, ClearRef(s, rc, i, code))
  {
  }

  lemma {:induction false} ClearRefsRights(s: State, rc: nat, i: nat, code: Code)
    requires s.Shape() && rc < s.Size() && i <= s.Size()
    ensures SameRights(s, ClearRefs(s, rc, i, code))
    decreases s.Size() - i
  {
    if i < s.Size() {
      ClearRefRights(s, rc, i, code);
      ClearRefsRights(ClearRef(s, rc, i, code), rc, i + 1, code);
    }
  }

  lemma LeaveRights(s: State, rc: nat)
    requires s.Shape() && rc < s.Size()
    ensures SameRights(s, ClearIpc(Kill(s, rc), rc))
  {
  }

  lemma ExitRights(s: State, rc: nat)
    requires s.Shape() && rc < s.Size()
    ensures SameRights(s, ClearEndpoint(s, rc).0)
  {
    var t := ClearIpc(Kill(s, rc), rc);
    LeaveRights(s, rc);
    CancelAllRights(t, rc);
    ClearRefsRights(CancelAll(t, rc).0, rc, 0, EDEADSRCDST);
  }

  // ---------------------------------------------------------------- sends that block

  lemma LeadsNowhere(g: Graph, x: int, y: int)
    requires 0 <= x < |g| && g[x] < 0 && x != y
    ensures !Reaches(g, x, y)
  {
    if p :| PathBetween(g, p, x, y) { FirstEdge(g, p); }
  }

  lemma FirstEdge(g: Graph, p: seq<int>)
    requires IsPath(g, p) && |p| > 1
    ensures g[p[0]] >= 0
  {
    assert g[p[0]] == p[1];
  }

  /** `c` may send to `d`, which does not wait. */
  ghost predicate Ready(s: State, c: nat, d: nat) {
    && Core(s) && MayTrap(s, c) && Alive(s, d) && c != d && d >= NR_TASKS && d in s.privs[c].ipcTo && SEND in s.privs[c].traps
    && !s.procs[d].sending && !s.procs[d].receiving
  }

  lemma ReadyBlocks(s: State, c: nat, d: nat, b: Body)
    requires Ready(s, c, d)
    ensures Enabled(s, Trap(c, SEND, Ep(d), Some(b))) && Blocks(s, Trap(c, SEND, Ep(d), Some(b)))
    ensures DoSyncIpc(s, c, SEND, Ep(d), Some(b)) == (BlockSend(s, c, d, b), OK)
  {
    assert Waits(s)[d] == -1;
    LeadsNowhere(Waits(s), d, c);
    SendDeadlockExact(s, c, d);
  }

  /** Somebody to start with: slots 5 to 7 may send to higher slots and to 6. */
  function Somebody(): Proc {
    Proc(false, false, false, false, {}, false, false, ANY, 0, Notification, Message(0, Notification), OK)
  }

  function Rights(i: int): Priv {
    Priv({}, {}, if i == 5 then {6, 7} else if i == 6 then {7} else {}, {SEND}, false, [], false, [], 0)
  }

  function Start(): State { State(seq(8, _ => Somebody()), seq(8, i => Rights(i)), seq(8, _ => []), []) }

  lemma StartReady()
    ensures Inv(Start()) && Ready(Start(), 5, 7)
  {
    InitialInv(Start());
  }

  lemma SecondReady(b: Body)
    requires Inv(BlockSend(Start(), 5, 7, b))
    ensures Ready(BlockSend(Start(), 5, 7, b), 6, 7)
  {
  }

  lemma ReadyApplies(s: State, c: nat, d: nat, b: Body)
    requires Ready(s, c, d)
    ensures var step := Trap(c, SEND, Ep(d), Some(b));
      Possible(s, step) && !SelfWait(s, step) && Blocks(s, step) && Leftovers(s, step) == {}
      && Apply(s, step) == (BlockSend(s, c, d, b), OK)
  {
    ReadyBlocks(s, c, d, b);
  }

  /** A send that blocks. */
  method Send(k: Kernel, c: nat, d: nat, b: Body)
    requires k.Valid() && Inv(k.Abs()) && Ready(k.Abs(), c, d) && c !in k.Stale()
    modifies k, k.proc, k.priv, k.callerQ, k.qLink
    ensures k.Valid() && Inv(k.Abs()) && k.Abs() == BlockSend(old(k.Abs()), c, d, b) && k.Stale() == old(k.Stale())
  {
    var step := Trap(c, SEND, Ep(d), Some(b));
    ReadyApplies(k.Abs(), c, d, b);
    var _, _ := k.Enter(step);
  }

  /** The same with a stale link. */
  method SendAgain(k: Kernel, c: nat, d: nat, b: Body) returns (stop: bool)
    requires k.Valid() && Inv(k.Abs()) && Ready(k.Abs(), c, d) && c in k.Stale()
    modifies k, k.proc, k.priv, k.callerQ, k.qLink
    ensures stop
  {
    ReadyBlocks(k.Abs(), c, d, b);
    assert k.qLink[..][c] == k.qLink[c];
    var r;
    r, stop := k.Enter(Trap(c, SEND, Ep(d), Some(b)));
  }

  /** Two processes send to a third, which exits; the one with the lower slot keeps a stale link, and the
      kernel stops when that process sends again. */
  method StaleLinkStops() returns (stop: bool)
    ensures stop
  {
    var b := Content([]);
    var k := new Kernel(seq(8, _ => Somebody()), seq(8, i => Rights(i)));
    assert k.Abs() == Start();
    StartReady();
    Send(k, 5, 7, b);
    SecondReady(b);
    Send(k, 6, 7, b);
    ghost var s := k.Abs();
    OneQueued(b);
    TwoQueued(BlockSend(Start(), 5, 7, b), b);
    var _, _ := k.Enter(Exit(7));
    AfterExit(s, k.Abs());
    stop := SendAgain(k, 5, 6, b);
  }

  /** The table after the first send. */
  ghost predicate FirstQueued(s: State) {
    && s.Sized() && s.Size() == 8 && s.queues[7] == [5] && Queued(s.procs[5])
    && s.procs[6] == Somebody() && s.procs[7] == Somebody() && s.privs[5] == Rights(5)
  }

  lemma OneQueued(b: Body)
    ensures FirstQueued(BlockSend(Start(), 5, 7, b))
  {
  }

  lemma TwoQueued(s: State, b: Body)
    requires FirstQueued(s)
    ensures var t := BlockSend(s, 6, 7, b);
      && t.Sized() && t.Size() == 8 && t.queues[7] == [5, 6] && Enabled(t, Exit(7))
      && 6 in t.privs[5].ipcTo && SEND in t.privs[5].traps && Queued(t.procs[5]) && Queued(t.procs[6])
  {
  }

  predicate Queued(p: Proc) { p == Somebody().(sending := true, sendTo := 7, sendMsg := p.sendMsg) }

  /** What exit makes of the two senders. */
  lemma SendersFree(s: State)
    requires Inv(s) && s.Size() == 8 && Enabled(s, Exit(7)) && BlockedOn(s.procs[5]) == 7 && BlockedOn(s.procs[6]) == 7
    ensures var t := ClearEndpoint(s, 7).0;
      && t.procs[5] == s.procs[5].(sending := false, receiving := false, retreg := EDEADSRCDST)
      && t.procs[6] == s.procs[6].(sending := false, receiving := false, retreg := EDEADSRCDST)
  {
    ExitAsync(s, 7);
    ExitExact(s, 7);
  }

  lemma AfterExit(s: State, t: State)
    requires Inv(s) && s.Size() == 8 && s.queues[7] == [5, 6] && t == ClearEndpoint(s, 7).0 && Core(t) && Enabled(s, Exit(7))
    requires 6 in s.privs[5].ipcTo && SEND in s.privs[5].traps
    requires Queued(s.procs[5]) && Queued(s.procs[6])
    ensures Ready(t, 5, 6) && 5 in LeftStale(s, 7)
  {
    SendersFree(s);
    ExitRights(s, 7);
    assert Before([5, 6], 5, 6);
    assert HigherBehind(s.queues[7], 5);
  }
}
