/** What try_one, cancel_async and exit do to registered tables, and what their owners are told. */
module IpcTables {
  import opened IpcTypes
  import opened IpcSpec
  import opened IpcInv
  import opened IpcCalls
  import opened IpcExit
  import opened IpcPending
  import opened IpcSteps
  import opened IpcRun
  import opened IpcReceives

  /** `x` waits for a notification from ASYNCM. */
  predicate Listens(p: Proc) { p.receiving && !p.sending && !p.replyPend && Accepts(p.getFrom, ASYNCM) }

  /** Whether `x` wants to hear that something is finished, and has heard: by a notification from ASYNCM in its
      buffer if it waits for one, and otherwise by one that is pending. */
  predicate Told(s: State, t: State, x: nat, wants: bool)
    requires s.Sized() && t.Sized() && t.Size() == s.Size() && x < s.Size()
  {
    if !wants || s.procs[x].slotFree then
      t.procs[x] == s.procs[x] && t.privs[x].notifyPending == s.privs[x].notifyPending
    else if Listens(s.procs[x]) then
      && t.procs[x] == s.procs[x].(delivered := Message(ASYNCM, Notification), deliverMsg := true, receiving := false)
      && t.privs[x].notifyPending == s.privs[x].notifyPending
    else
      t.procs[x] == s.procs[x] && t.privs[x].notifyPending == s.privs[x].notifyPending + {ASYNCM}
  }

  lemma NotifyDoneTells(s: State, x: nat, wants: bool)
    requires s.Sized() && x < s.Size()
    ensures var t := NotifyDone(s, x, wants);
      && Told(s, t, x, wants)
      && t.privs == s.privs[x := s.privs[x].(notifyPending := t.privs[x].notifyPending)]
      && t.procs == s.procs[x := t.procs[x]]
  {
  }

  // ---------------------------------------------------------------- try_one

  predicate Wants(e: Entry, r: Code) { e.notify || (r != OK && e.notifyErr) }

  /** The scan stops at entry `k`: it is malformed, or for `c`, and none before is either. */
  ghost predicate Stop(t: seq<Entry>, c: nat, reply: bool, k: nat) {
    k < |t| && (t[k].Bad() || Fits(t[k], c, reply)) && forall j :: 0 <= j < k ==> !t[j].Bad() && !Fits(t[j], c, reply)
  }

  /** The outcome `o` of try_one for the table of `src` and the destination `c`. */
  ghost predicate TryOutcome(s: State, src: nat, c: nat, o: (State, Code))
    requires s.Sized() && src < s.Size() && c < s.Size() && o.0.Sized() && o.0.Size() == s.Size()
  {
    var p, t, reply := s.privs[src], o.0, s.procs[c].replyPend;
    if !p.sysProc then o == (s, EPERM)
    else if !p.registered then o.1 == EAGAIN && Vain(s, t, src, c, p, false)
    else if c !in p.ipcTo then o.1 == ECALLDENIED && Vain(s, t, src, c, p, false)
    else if exists k: nat :: Stop(p.table, c, reply, k) then
      forall k: nat :: Stop(p.table, c, reply, k) ==> Stopped(s, src, c, k, o)
    else if forall j :: 0 <= j < |p.table| ==> p.table[j].Settled() then
      o.1 == EAGAIN && Vain(s, t, src, c, p.(registered := false), false)
    else o.1 == EAGAIN && Vain(s, t, src, c, p, true)
  }

  /** Nothing was delivered; the table of `src` is now `p` and its bit at `c` is `bit`. */
  predicate Vain(s: State, t: State, src: nat, c: nat, p: Priv, bit: bool)
    requires s.Sized() && t.Sized() && t.Size() == s.Size() && src < s.Size() && c < s.Size()
  {
    && t.procs == s.procs && t.queues == s.queues && t.log == s.log
    && t.privs[src] == p && (src in t.privs[c].asynPending <==> bit)
  }

  /** Entry `k` was refused or delivered, and its result stored; the table stays registered. */
  predicate Stopped(s: State, src: nat, c: nat, k: nat, o: (State, Code))
    requires s.Sized() && src < s.Size() && c < s.Size() && o.0.Sized() && o.0.Size() == s.Size() && k < |s.privs[src].table|
  {
    var t, e, r := o.0, s.privs[src].table[k], if s.privs[src].table[k].Bad() then EINVAL else OK;
    && o.1 == r && t.queues == s.queues && src in t.privs[c].asynPending
    && t.privs[src].table == s.privs[src].table[k := e.(done := true, result := r)] && t.privs[src].registered
    && (if r == OK then Got(s, t, src, c, k) else t.procs[c] == s.procs[c])
    && Told(s, t, src, Wants(e, r))
  }

  lemma TryExact(s: State, src: nat, c: nat)
    requires s.Sized() && src < s.Size() && c < s.Size() && src != c
    ensures TryOutcome(s, src, c, TryOne(s, src, c))
  {
    var p := s.privs[src];
    if p.sysProc && p.registered && c in p.ipcTo {
      StopAtExact(p.table, c, s.procs[c].replyPend, 0);
      var k := StopAt(p.table, c, s.procs[c].replyPend, 0);
      if k < |p.table| {
        assert Stop(p.table, c, s.procs[c].replyPend, k);
        StoppedExact(s, src, c, k);
        forall j: nat | Stop(p.table, c, s.procs[c].replyPend, j) ensures j == k {}
      } else {
        forall j: nat ensures !Stop(p.table, c, s.procs[c].replyPend, j) {}
      }
    }
  }

  lemma StoppedExact(s: State, src: nat, c: nat, k: nat)
    requires s.Sized() && src < s.Size() && c < s.Size() && src != c
    requires s.privs[src].sysProc && s.privs[src].registered && c in s.privs[src].ipcTo
    requires k < |s.privs[src].table| && k == StopAt(s.privs[src].table, c, s.procs[c].replyPend, 0)
    ensures Stopped(s, src, c, k, TryOne(s, src, c))
  {
    var e := s.privs[src].table[k];
    var r := if e.Bad() then EINVAL else OK;
    var s1 := UnsetAsyn(s, c, src);
    var s2 := if r == OK then PlaceAsync(s1, src, k, c) else StoreResult(s1, src, k, r);
    NotifyDoneTells(s2, src, e.WantsNotice(r));
    StillPendingSame(s2, src, c, e.WantsNotice(r));
  }

  // ---------------------------------------------------------------- cancel_async

  /** An entry as cancel_async for `d` leaves it. */
  function GivenUp(e: Entry, d: nat): Entry {
    if e.dst != d || e.Settled() then e
    else e.(done := true, result := if e.Bad() then EINVAL else EDEADSRCDST)
  }

  predicate GivenUpTable(t: seq<Entry>, u: seq<Entry>, d: nat) {
    |u| == |t| && forall i :: 0 <= i < |t| ==> u[i] == GivenUp(t[i], d)
  }

  /** An entry for another destination is open. */
  predicate StillOpen(t: seq<Entry>, d: nat) {
    exists i :: 0 <= i < |t| && t[i].dst != d && !t[i].Settled()
  }

  /** An open entry for `d` asks for a notice when it fails. */
  predicate AsksNotice(t: seq<Entry>, d: nat) {
    exists i :: 0 <= i < |t| && t[i].dst == d && !t[i].Settled() && (t[i].notify || t[i].notifyErr)
  }

  /** What cancel_async for `d` does to the table of `src`: its bit at `d` is gone; every open entry for `d` is
      done with an error, the others stay, and the table stays registered exactly for those of them that are open;
      the owner is told if it wants to be. */
  ghost predicate CancelOutcome(s: State, src: nat, d: nat, t: State)
    requires s.Sized() && src < s.Size() && d < s.Size() && t.Sized() && t.Size() == s.Size()
  {
    var p, q := s.privs[src], t.privs[src];
    if !p.sysProc then t == s
    else
      && src !in t.privs[d].asynPending
      && if !p.registered || d !in p.ipcTo then t.procs == s.procs && q == p.(registered := false)
         else Finished(p, q, d) && Told(s, t, src, AsksNotice(p.table, d))
  }

  predicate Finished(p: Priv, q: Priv, d: nat) {
    GivenUpTable(p.table, q.table, d) && (q.registered <==> StillOpen(p.table, d))
  }

  lemma CancelExact(s: State, src: nat, d: nat)
    requires s.Sized() && src < s.Size() && d < s.Size() && src != d
    ensures CancelOutcome(s, src, d, CancelAsync(s, src, d))
  {
    var p := s.privs[src];
    if p.sysProc && p.registered && d in p.ipcTo {
      var u := UnsetAsyn(Register(s, src, false), d, src);
      var t := FinishCancel(u, src, d);
      assert CancelAsync(s, src, d) == t;
      CancelFinishes(u, src, d);
      CancelTells(u, src, d);
      ToldSame(s, u, t, src, AsksNotice(p.table, d));
    }
  }

  lemma ToldSame(s: State, u: State, t: State, x: nat, wants: bool)
    requires s.Sized() && u.Sized() && t.Sized() && t.Size() == u.Size() == s.Size() && x < s.Size()
    requires u.procs[x] == s.procs[x] && u.privs[x].notifyPending == s.privs[x].notifyPending
    requires Told(u, t, x, wants)
    ensures Told(s, t, x, wants)
  {
  }

  lemma CancelFinishes(u: State, src: nat, d: nat)
    requires u.Sized() && src < u.Size() && !u.privs[src].registered
    ensures Finished(u.privs[src], FinishCancel(u, src, d).privs[src], d)
  {
    var t := u.privs[src].table;
    FinishCancelFrame(u, src, d);
    NotifyDoneFrame(StoreCancel(u, src, d), src, CancelNotice(t, d));
    assert OthersOpen(t, d) <==> StillOpen(t, d);
    forall i | 0 <= i < |t| ensures CancelTable(t, d)[i] == GivenUp(t[i], d) {}
  }

  lemma CancelTells(u: State, src: nat, d: nat)
    requires u.Sized() && src < u.Size()
    ensures Told(u, FinishCancel(u, src, d), src, AsksNotice(u.privs[src].table, d))
  {
    var t := u.privs[src].table;
    var v := StoreCancel(u, src, d);
    assert CancelNotice(t, d) <==> AsksNotice(t, d);
    NotifyDoneTells(v, src, CancelNotice(t, d));
    ToldSame(u, v, NotifyDone(v, src, CancelNotice(t, d)), src, AsksNotice(t, d));
  }

  // ---------------------------------------------------------------- exit

  predicate SameTable(v: Priv, w: Priv) {
    w.table == v.table && w.registered == v.registered && w.sysProc == v.sysProc && w.ipcTo == v.ipcTo
  }

  /** What the exit of `d` does to the table of another process, whose bit at `d` was `bit`. */
  predicate Bereaved(v: Priv, w: Priv, d: nat, bit: bool) {
    if bit && v.registered then Finished(v, w, d) else w.table == v.table && w.registered == v.registered
  }

  lemma CancelSpares(s: State, src: nat, d: nat, x: nat)
    requires s.Sized() && src < s.Size() && d < s.Size() && x < s.Size() && x != src
    ensures SameTable(s.privs[x], CancelAsync(s, src, d).privs[x])
  {
    var p := s.privs[src];
    if p.sysProc && p.registered && d in p.ipcTo {
      FinishCancelFrame(UnsetAsyn(Register(s, src, false), d, src), src, d);
    }
  }

  lemma CancelOwn(s: State, src: nat, d: nat)
    requires s.Sized() && src < s.Size() && d < s.Size() && src != d && MaySenda(s, src, d)
    ensures Bereaved(s.privs[src], CancelAsync(s, src, d).privs[src], d, true)
  {
    CancelExact(s, src, d);
  }

  lemma {:induction false} CancelAllTables(s: State, rc: nat, x: nat)
    requires s.Shape() && rc < s.Size() && x < s.Size() && x != rc && CancelAll(s, rc).1 == OK
    requires x in s.privs[rc].asynPending ==> MaySenda(s, x, rc)
    ensures Bereaved(s.privs[x], CancelAll(s, rc).0.privs[x], rc, x in s.privs[rc].asynPending)
    decreases |s.privs[rc].asynPending|
  {
    var src := FirstFrom(s.privs[rc].asynPending, 0, s.Size());
    if src.Some? {
      var t := CancelAsync(s, src.value, rc);
      assert t.privs[rc].asynPending < s.privs[rc].asynPending;
      assert CancelAll(s, rc) == CancelAll(t, rc);
      if src.value == x { CancelOwn(s, x, rc); } else { CancelSpares(s, src.value, rc, x); }
      CancelAllTables(t, rc, x);
    } else {
      FirstFromNone(s.privs[rc].asynPending, 0, s.Size(), x);
    }
  }

  lemma ClearRefTable(s: State, rc: nat, i: nat, code: Code, x: nat)
    requires s.Shape() && rc < s.Size() && i < s.Size() && x < s.Size()
    ensures SameTable(s.privs[x], ClearRef(s, rc, i, code).privs[x])
  {
  }

  lemma {:induction false} ClearRefsTables(s: State, rc: nat, i: nat, code: Code, x: nat)
    requires s.Shape() && rc < s.Size() && i <= s.Size() && x < s.Size()
    ensures SameTable(s.privs[x], ClearRefs(s, rc, i, code).privs[x])
    decreases s.Size() - i
  {
    if i < s.Size() {
      ClearRefTable(s, rc, i, code, x);
      ClearRefsTables(ClearRef(s, rc, i, code), rc, i + 1, code, x);
    }
  }

  lemma KillTables(s: State, rc: nat)
    requires s.Shape() && rc < s.Size()
    ensures ClearIpc(Kill(s, rc), rc).privs ==
      if s.privs[rc].sysProc then s.privs[rc := s.privs[rc].(registered := false)] else s.privs
  {
  }

  lemma ExitOwn(s: State, rc: nat)
    requires s.Shape() && AsyncInv(s) && rc < s.Size()
    ensures !ClearEndpoint(s, rc).0.privs[rc].registered
  {
    var u := CancelAll(ClearIpc(Kill(s, rc), rc), rc);
    KillTables(s, rc);
    ClearRefsTables(u.0, rc, 0, EDEADSRCDST, rc);
  }

  lemma ExitBereaves(s: State, rc: nat, x: nat)
    requires s.Shape() && AsyncInv(s) && rc < s.Size() && x < s.Size() && x != rc
    ensures Bereaved(s.privs[x], ClearEndpoint(s, rc).0.privs[x], rc, x in s.privs[rc].asynPending)
  {
    var u := ClearIpc(Kill(s, rc), rc);
    KillTables(s, rc);
    ExitAsync(s, rc);
    CancelAllTables(u, rc, x);
    ClearRefsTables(CancelAll(u, rc).0, rc, 0, EDEADSRCDST, x);
  }

  /** Every open entry for `d` of a registered table is done, and the others are as they were. */
  ghost predicate Settles(v: Priv, w: Priv, d: nat) {
    && |w.table| == |v.table|
    && (v.registered ==> forall i :: 0 <= i < |v.table| && v.table[i].dst == d && v.table[i].Unfinished() ==>
          w.table[i] == v.table[i].(done := true, result := EDEADSRCDST))
    && forall i :: 0 <= i < |v.table| && v.table[i].dst != d ==> w.table[i] == v.table[i]
  }

  lemma BereavedSettles(s: State, w: Priv, d: nat, x: nat)
    requires Pending(s) && d < s.Size() && x < s.Size()
    requires Bereaved(s.privs[x], w, d, x in s.privs[d].asynPending)
    ensures Settles(s.privs[x], w, d)
  {
    var v := s.privs[x];
    if v.registered && x !in s.privs[d].asynPending {
      forall i | 0 <= i < |v.table| && v.table[i].dst == d ensures !v.table[i].Unfinished() {
        assert Remembered(s, x, v.table[i]);
      }
    }
  }

  /** What an exit of `rc` means for the table of `x`. */
  ghost predicate AfterExit(s: State, t: State, rc: nat, x: nat)
    requires s.Sized() && t.Sized() && t.Size() == s.Size() && rc < s.Size() && x < s.Size()
  {
    if x == rc then !t.privs[x].registered
    else
      && Settles(s.privs[x], t.privs[x], rc)
      && Bereaved(s.privs[x], t.privs[x], rc, x in s.privs[rc].asynPending)
  }

  lemma ExitTable(s: State, rc: nat, x: nat)
    requires s.Shape() && AsyncInv(s) && rc < s.Size() && x < s.Size()
    ensures AfterExit(s, ClearEndpoint(s, rc).0, rc, x)
  {
    if x == rc { ExitOwn(s, rc); }
    else {
      ExitBereaves(s, rc, x);
      BereavedSettles(s, ClearEndpoint(s, rc).0.privs[x], rc, x);
    }
  }

  /** Exit settles what others sent to `rc` asynchronously: their open entries for it are done with EDEADSRCDST,
      no entry for anybody else is touched, and its own table is forgotten. */
  lemma ExitTables(s: State, rc: nat)
    requires s.Shape() && AsyncInv(s) && rc < s.Size()
    ensures forall x :: 0 <= x < s.Size() ==> AfterExit(s, ClearEndpoint(s, rc).0, rc, x)
  {
    forall x | 0 <= x < s.Size() ensures AfterExit(s, ClearEndpoint(s, rc).0, rc, x) { ExitTable(s, rc, x); }
  }
}
