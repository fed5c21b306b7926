/** No asynchronous sender is forgotten: as long as a registered table holds a message for `d`
    that is not finished, the sender has its bit set at `d`. */
module IpcPending {
  import opened IpcTypes
  import opened Lists
  import opened IpcSpec
  import opened IpcInv
  import opened IpcCalls

  ghost predicate NoneForgotten(s: State)
    requires s.Sized()
  {
    forall src, i :: 0 <= src < s.Size() && s.privs[src].registered && 0 <= i < |s.privs[src].table| ==>
      Remembered(s, src, s.privs[src].table[i])
  }

  predicate Remembered(s: State, src: nat, e: Entry)
    requires s.Sized()
  {
    e.Unfinished() ==> 0 <= e.dst < s.Size() && src in s.privs[e.dst].asynPending
  }

  predicate MaySenda(s: State, x: nat, d: nat)
    requires s.Sized()
  {
    x < s.Size() && s.privs[x].sysProc && d in s.privs[x].ipcTo
  }

  /** Pending bits belong to system processes that may send to the receiver, and only system
      processes register tables. */
  ghost predicate BitsPermitted(s: State)
    requires s.Sized()
  {
    && (forall d, x :: 0 <= d < s.Size() && x in s.privs[d].asynPending ==> MaySenda(s, x, d))
    && (forall x :: 0 <= x < s.Size() && s.privs[x].registered ==> s.privs[x].sysProc)
  }

  ghost predicate Pending(s: State) { s.Sized() && NoneForgotten(s) && BitsPermitted(s) }

  /** `w` has no more work left than `v`, and the same rights. */
  ghost predicate LessWork(v: Priv, w: Priv) {
    && w.sysProc == v.sysProc && w.ipcTo == v.ipcTo
    && (w.registered ==> v.registered && |w.table| == |v.table|)
    && (w.registered ==> forall j :: 0 <= j < |w.table| && w.table[j].Unfinished() ==> w.table[j] == v.table[j])
  }

  ghost predicate LessWorkAll(s: State, t: State)
    requires s.Sized() && t.Sized()
  {
    t.Size() == s.Size() && forall i :: 0 <= i < s.Size() ==> LessWork(s.privs[i], t.privs[i])
  }

  lemma SameBitsPending(s: State, t: State)
    requires Pending(s) && t.Sized() && LessWorkAll(s, t)
    requires forall i :: 0 <= i < s.Size() ==> t.privs[i].asynPending == s.privs[i].asynPending
    ensures Pending(t)
  {
    forall src, i | 0 <= src < t.Size() && t.privs[src].registered && 0 <= i < |t.privs[src].table|
      ensures Remembered(t, src, t.privs[src].table[i])
    {
      assert LessWork(s.privs[src], t.privs[src]);
      assert Remembered(s, src, s.privs[src].table[i]);
    }
    forall d, x | 0 <= d < t.Size() && x in t.privs[d].asynPending
      ensures MaySenda(t, x, d)
    {
      assert MaySenda(s, x, d);
      assert LessWork(s.privs[x], t.privs[x]);
    }
    forall x | 0 <= x < t.Size() && t.privs[x].registered ensures t.privs[x].sysProc {
      assert LessWork(s.privs[x], t.privs[x]);
    }
  }

  /** The bit of `src` at `d` may go when `src` has nothing registered for `d` any more, and may
      come when `src` has the right to send. */
  lemma BitChanged(s: State, t: State, src: nat, d: nat)
    requires Pending(s) && t.Sized() && LessWorkAll(s, t) && src < s.Size() && d < s.Size()
    requires forall i :: 0 <= i < s.Size() && i != d ==> t.privs[i].asynPending == s.privs[i].asynPending
    requires forall x :: x != src ==> (x in t.privs[d].asynPending <==> x in s.privs[d].asynPending)
    requires src in t.privs[d].asynPending ==> s.privs[src].sysProc && d in s.privs[src].ipcTo
    requires src !in t.privs[d].asynPending && t.privs[src].registered ==>
      forall j :: 0 <= j < |t.privs[src].table| ==> !(t.privs[src].table[j].Unfinished() && t.privs[src].table[j].dst == d)
    ensures Pending(t)
  {
    forall x, i | 0 <= x < t.Size() && t.privs[x].registered && 0 <= i < |t.privs[x].table|
      ensures Remembered(t, x, t.privs[x].table[i])
    {
      assert LessWork(s.privs[x], t.privs[x]);
      assert Remembered(s, x, s.privs[x].table[i]);
    }
    forall b, x | 0 <= b < t.Size() && x in t.privs[b].asynPending
      ensures MaySenda(t, x, b)
    {
      if b == d && x == src {
        assert LessWork(s.privs[src], t.privs[src]);
      } else {
        assert MaySenda(s, x, b);
        assert LessWork(s.privs[x], t.privs[x]);
      }
    }
    forall x | 0 <= x < t.Size() && t.privs[x].registered ensures t.privs[x].sysProc {
      assert LessWork(s.privs[x], t.privs[x]);
    }
  }

  // ---------------------------------------------------------------- try_one and cancel_async

  /** What a notification of ASYNCM leaves alone. */
  lemma NotifyDoneFrame(s: State, src: nat, notice: bool)
    requires s.Sized() && src < s.Size()
    ensures var t := NotifyDone(s, src, notice);
      forall i :: 0 <= i < s.Size() ==> t.privs[i] == s.privs[i].(notifyPending := t.privs[i].notifyPending)
  {
  }

  lemma StillPendingFrame(s: State, src: nat, d: nat, notice: bool)
    requires s.Sized() && src < s.Size() && d < s.Size()
    ensures var t := StillPending(s, src, d, notice);
      && (forall i :: 0 <= i < s.Size() && i != d ==> t.privs[i] == s.privs[i].(notifyPending := t.privs[i].notifyPending))
      && t.privs[d] == s.privs[d].(notifyPending := t.privs[d].notifyPending, asynPending := s.privs[d].asynPending + {src})
  {
    NotifyDoneFrame(s, src, notice);
  }

  /** Same bits, and no more work. */
  ghost predicate Progress(s: State, t: State)
    requires s.Sized() && t.Sized()
  {
    LessWorkAll(s, t) && forall i :: 0 <= i < s.Size() ==> t.privs[i].asynPending == s.privs[i].asynPending
  }

  lemma StoreProgress(s: State, src: nat, k: nat, r: Code)
    requires s.Sized() && src < s.Size() && k < |s.privs[src].table|
    ensures Progress(s, StoreResult(s, src, k, r))
  {
  }

  lemma PlaceProgress(s: State, src: nat, k: nat, d: nat)
    requires s.Sized() && src < s.Size() && d < s.Size() && k < |s.privs[src].table|
    ensures Progress(s, PlaceAsync(s, src, k, d))
  {
    StoreProgress(s, src, k, OK);
  }

  lemma TryOnePending(s: State, src: nat, d: nat)
    requires Pending(s) && src < s.Size() && d < s.Size()
    ensures Pending(TryOne(s, src, d).0)
  {
    var p := s.privs[src];
    if p.sysProc {
      if !p.registered || d !in p.ipcTo {
        TryOneIdle(s, src, d);
      } else if StopAt(p.table, d, s.procs[d].replyPend, 0) == |p.table| {
        BitChanged(s, TryOne(s, src, d).0, src, d);
      } else {
        TryOneFound(s, src, d);
      }
    }
  }

  lemma TryOneIdle(s: State, src: nat, d: nat)
    requires Pending(s) && src < s.Size() && d < s.Size()
    requires !s.privs[src].registered || d !in s.privs[src].ipcTo
    ensures Pending(UnsetAsyn(s, d, src))
  {
    assert src in s.privs[d].asynPending ==> MaySenda(s, src, d);
    BitChanged(s, UnsetAsyn(s, d, src), src, d);
  }

  lemma TryOneFound(s: State, src: nat, d: nat)
    requires Pending(s) && src < s.Size() && d < s.Size()
    requires s.privs[src].sysProc && s.privs[src].registered && d in s.privs[src].ipcTo
    requires StopAt(s.privs[src].table, d, s.procs[d].replyPend, 0) < |s.privs[src].table|
    ensures Pending(TryOne(s, src, d).0)
  {
    var p := s.privs[src];
    var s1 := UnsetAsyn(s, d, src);
    var k := StopAt(p.table, d, s.procs[d].replyPend, 0);
    var r := if p.table[k].Bad() then EINVAL else OK;
    var s2 := if r == OK then PlaceAsync(s1, src, k, d) else StoreResult(s1, src, k, r);
    StoreProgress(s1, src, k, r);
    PlaceProgress(s1, src, k, d);
    StillPendingFrame(s2, src, d, p.table[k].WantsNotice(r));
    Restored(s, s2, TryOne(s, src, d).0, src, d);
  }

  /** Between `s` and `t` the bit of `src` at `d` was cleared and set again. */
  lemma Restored(s: State, u: State, t: State, src: nat, d: nat)
    requires Pending(s) && u.Sized() && t.Sized() && src < s.Size() && d < s.Size() == t.Size()
    requires s.privs[src].sysProc && d in s.privs[src].ipcTo
    requires Progress(UnsetAsyn(s, d, src), u)
    requires forall i :: 0 <= i < s.Size() && i != d ==> t.privs[i] == u.privs[i].(notifyPending := t.privs[i].notifyPending)
    requires t.privs[d] == u.privs[d].(notifyPending := t.privs[d].notifyPending, asynPending := u.privs[d].asynPending + {src})
    ensures Pending(t)
  {
    var s1 := UnsetAsyn(s, d, src);
    forall i | 0 <= i < s.Size() ensures LessWork(s.privs[i], t.privs[i]) {
      assert LessWork(s1.privs[i], u.privs[i]);
    }
    BitChanged(s, t, src, d);
  }

  lemma {:induction false} TryAsyncPending(s: State, c: nat, i: nat)
    requires Pending(s) && c < s.Size()
    ensures Pending(TryAsync(s, c, i).0)
    decreases s.Size() - i
  {
    if i < s.Size() {
      if i in s.privs[c].asynPending {
        var r := TryOne(s, i, c);
        assert TryAsync(s, c, i).0 == if r.1 == OK then r.0 else TryAsync(r.0, c, i + 1).0;
        TryOnePending(s, i, c);
        if r.1 != OK { TryAsyncPending(r.0, c, i + 1); }
      } else {
        TryAsyncPending(s, c, i + 1);
      }
    }
  }

  lemma FinishCancelFrame(s: State, src: nat, d: nat)
    requires s.Sized() && src < s.Size()
    ensures var t := FinishCancel(s, src, d);
      && (forall i :: 0 <= i < s.Size() && i != src ==> t.privs[i] == s.privs[i].(notifyPending := t.privs[i].notifyPending))
      && t.privs[src] == s.privs[src].(notifyPending := t.privs[src].notifyPending,
           registered := t.privs[src].registered, table := CancelTable(s.privs[src].table, d))
  {
    NotifyDoneFrame(StoreCancel(s, src, d), src, CancelNotice(s.privs[src].table, d));
  }

  /** After the entries for `d` have been finished, the bit at `d` is not needed. */
  lemma CancelledPending(s: State, t: State, src: nat, d: nat)
    requires Pending(s) && t.Sized() && src < s.Size() && d < s.Size() == t.Size()
    requires s.privs[src].registered
    requires forall i :: 0 <= i < s.Size() && i != src ==>
      t.privs[i] == s.privs[i].(notifyPending := t.privs[i].notifyPending, asynPending := t.privs[i].asynPending)
    requires t.privs[src] == s.privs[src].(notifyPending := t.privs[src].notifyPending, asynPending := t.privs[src].asynPending,
           registered := t.privs[src].registered, table := CancelTable(s.privs[src].table, d))
    requires forall i :: 0 <= i < s.Size() ==>
      t.privs[i].asynPending == if i == d then s.privs[i].asynPending - {src} else s.privs[i].asynPending
    ensures Pending(t)
  {
    BitChanged(s, t, src, d);
  }

  lemma CancelAsyncPending(s: State, src: nat, d: nat)
    requires Pending(s) && src < s.Size() && d < s.Size()
    ensures Pending(CancelAsync(s, src, d))
  {
    var p := s.privs[src];
    if p.sysProc {
      var u := UnsetAsyn(Register(s, src, false), d, src);
      if !p.registered || d !in p.ipcTo {
        BitChanged(s, u, src, d);
      } else {
        FinishedPending(s, src, d);
      }
    }
  }

  lemma FinishedPending(s: State, src: nat, d: nat)
    requires Pending(s) && src < s.Size() && d < s.Size() && s.privs[src].registered
    ensures Pending(FinishCancel(UnsetAsyn(Register(s, src, false), d, src), src, d))
  {
    var u := UnsetAsyn(Register(s, src, false), d, src);
    FinishCancelFrame(u, src, d);
    CancelledPending(s, FinishCancel(u, src, d), src, d);
  }

  // ---------------------------------------------------------------- SENDA

  /** After `i` rounds of the scan, the unfinished entries so far are remembered. */
  ghost predicate ScannedTo(s: State, c: nat, i: nat)
    requires s.Sized() && c < s.Size()
  {
    && !s.privs[c].registered && s.privs[c].sysProc && i <= |s.privs[c].table|
    && forall j :: 0 <= j < i ==> Remembered(s, c, s.privs[c].table[j])
  }

  lemma SetAsynPending(s: State, d: nat, src: nat)
    requires Pending(s) && d < s.Size() && src < s.Size() && s.privs[src].sysProc && d in s.privs[src].ipcTo
    ensures Pending(SetAsyn(s, d, src))
  {
    BitChanged(s, SetAsyn(s, d, src), src, d);
  }

  lemma SendaEntryScanned(a: Scan, c: nat, i: nat)
    requires a.s.Sized() && c < a.s.Size() && i < |a.s.privs[c].table| && ScannedTo(a.s, c, i)
    ensures ScannedTo(SendaEntry(a, c, i).s, c, i + 1)
  {
    var t := SendaEntry(a, c, i).s;
    forall j | 0 <= j < i + 1 ensures Remembered(t, c, t.privs[c].table[j]) {
      if j < i {
        assert Remembered(a.s, c, a.s.privs[c].table[j]);
        SendaEntryRemembers(a, c, i, j);
      } else {
        SendaEntryHandles(a, c, i);
      }
    }
  }

  lemma SendaEntryRemembers(a: Scan, c: nat, i: nat, j: nat)
    requires a.s.Sized() && c < a.s.Size() && j < i < |a.s.privs[c].table| && Remembered(a.s, c, a.s.privs[c].table[j])
    ensures var t := SendaEntry(a, c, i).s; Remembered(t, c, t.privs[c].table[j])
  {
  }

  lemma SendaEntryHandles(a: Scan, c: nat, i: nat)
    requires a.s.Sized() && c < a.s.Size() && i < |a.s.privs[c].table|
    ensures var t := SendaEntry(a, c, i).s; Remembered(t, c, t.privs[c].table[i])
  {
    var s, e := a.s, a.s.privs[c].table[i];
    if e.Unfinished() {
      var r := Refusal(s, c, e.dst);
      if r != OK {
        StoreFinishes(s, c, i, r);
      } else if WillReceive(s.procs[e.dst], c) && (!e.noReply || !s.procs[e.dst].replyPend) {
        PlaceFinishes(s, c, i, e.dst);
      } else {
        assert c in SetAsyn(s, e.dst, c).privs[e.dst].asynPending;
      }
    }
  }

  lemma StoreFinishes(s: State, c: nat, i: nat, r: Code)
    requires s.Sized() && c < s.Size() && i < |s.privs[c].table|
    ensures !StoreResult(s, c, i, r).privs[c].table[i].Unfinished()
  {
  }

  lemma PlaceFinishes(s: State, c: nat, i: nat, d: nat)
    requires s.Sized() && c < s.Size() && d < s.Size() && i < |s.privs[c].table|
    ensures !PlaceAsync(s, c, i, d).privs[c].table[i].Unfinished()
  {
  }

  lemma SendaEntryPending(a: Scan, c: nat, i: nat)
    requires Pending(a.s) && c < a.s.Size() && i < |a.s.privs[c].table| && a.s.privs[c].sysProc
    ensures Pending(SendaEntry(a, c, i).s)
  {
    var s := a.s;
    var e := s.privs[c].table[i];
    if e.Unfinished() {
      var r := Refusal(s, c, e.dst);
      if r != OK {
        StoreProgress(s, c, i, r);
        SameBitsPending(s, StoreResult(s, c, i, r));
      } else if WillReceive(s.procs[e.dst], c) && (!e.noReply || !s.procs[e.dst].replyPend) {
        PlaceProgress(s, c, i, e.dst);
        SameBitsPending(s, PlaceAsync(s, c, i, e.dst));
      } else {
        SetAsynPending(s, e.dst, c);
      }
    }
  }

  lemma {:induction false} SendaScanPending(a: Scan, c: nat, i: nat)
    requires Pending(a.s) && c < a.s.Size() && i <= |a.s.privs[c].table| && ScannedTo(a.s, c, i)
    ensures var t := SendaScan(a, c, i).s; Pending(t) && ScannedTo(t, c, |t.privs[c].table|)
    decreases |a.s.privs[c].table| - i
  {
    if i < |a.s.privs[c].table| {
      SendaEntryPending(a, c, i);
      SendaEntryScanned(a, c, i);
      SendaScanPending(SendaEntry(a, c, i), c, i + 1);
    }
  }

  lemma RegisterPending(s: State, c: nat)
    requires Pending(s) && c < s.Size() && ScannedTo(s, c, |s.privs[c].table|)
    ensures Pending(Register(s, c, true))
  {
    var t := Register(s, c, true);
    forall x, i | 0 <= x < t.Size() && t.privs[x].registered && 0 <= i < |t.privs[x].table|
      ensures Remembered(t, x, t.privs[x].table[i])
    {
      assert Remembered(s, x, s.privs[x].table[i]);
    }
  }

  lemma FinishSendaPending(a: Scan, c: nat)
    requires Pending(a.s) && c < a.s.Size() && ScannedTo(a.s, c, |a.s.privs[c].table|)
    ensures Pending(FinishSenda(a, c))
  {
    var u := NotifyDone(a.s, c, a.notice);
    NotifyDoneFrame(a.s, c, a.notice);
    SameBitsPending(a.s, u);
    assert ScannedTo(u, c, |u.privs[c].table|) by {
      forall j | 0 <= j < |u.privs[c].table| ensures Remembered(u, c, u.privs[c].table[j]) {
        assert Remembered(a.s, c, a.s.privs[c].table[j]);
      }
    }
    RegisterPending(u, c);
  }

  lemma MiniSendaPending(s: State, c: nat, table: seq<Entry>)
    requires Pending(s) && c < s.Size()
    ensures Pending(MiniSenda(s, c, table).0)
  {
    if |table| <= 16 * s.Size() && s.privs[c].sysProc {
      var a := Scan(Submit(s, c, table), false, false);
      SameBitsPending(s, a.s);
      SendaScanPending(a, c, 0);
      FinishSendaPending(SendaScan(a, c, 0), c);
    }
  }
}
