/** Tables of asynchronous sends: no entry is delivered twice, the results stored in a table say
    what happened, and no sender with work left is forgotten. */
module IpcAsync {
  import opened IpcTypes
  import opened Lists
  import opened IpcSpec
  import opened IpcInv

  // ---------------------------------------------------------------- results tell the truth

  /** What has reached buffers, and whose, from entry `idx` of the table with number `gen` of `src`. */
  function Deliveries(log: seq<Event>, src: nat, gen: nat, idx: nat): seq<Letter> {
    if log == [] then []
    else
      var e := log[|log| - 1];
      Deliveries(log[..|log| - 1], src, gen, idx) +
        (if e.AsyncPlaced? && e.src == src && e.gen == gen && e.idx == idx then [Letter(e.dst, e.body)] else [])
  }

  /** An entry is as handed in and undelivered, or it carries the result of the kernel, which is
      OK exactly if the message has been delivered, once, unchanged, to the destination named. */
  predicate Truthful(submitted: Entry, now: Entry, deliveries: seq<Letter>) {
    || (now == submitted && deliveries == [])
    || (now == submitted.Store(now.result)
        && deliveries == (if now.result == OK then [Letter(submitted.dst, submitted.body)] else [])
        && (now.result == OK ==> submitted.Unfinished()))
  }

  ghost predicate TableTruthful(log: seq<Event>, src: nat, v: Priv) {
    && |v.table| == |v.submitted|
    && (forall i :: 0 <= i < |v.table| ==> Truthful(v.submitted[i], v.table[i], Deliveries(log, src, v.gen, i)))
    && (forall g: nat, i: nat :: g > v.gen || (g == v.gen && i >= |v.table|) ==> Deliveries(log, src, g, i) == [])
    && (forall g: nat, i: nat :: |Deliveries(log, src, g, i)| <= 1)
  }

  ghost predicate AllTruthful(s: State)
    requires s.Sized()
  {
    forall src :: 0 <= src < s.Size() ==> SlotTruthful(s, src)
  }

  ghost predicate SlotTruthful(s: State, src: nat)
    requires s.Sized() && src < s.Size()
  {
    TableTruthful(s.log, src, s.privs[src])
  }

  lemma DeliveryAppends(log: seq<Event>, e: Event, src: nat, gen: nat, idx: nat)
    ensures Deliveries(log + [e], src, gen, idx) == Deliveries(log, src, gen, idx) +
      (if e.AsyncPlaced? && e.src == src && e.gen == gen && e.idx == idx then [Letter(e.dst, e.body)] else [])
  {
    assert (log + [e])[..|log|] == log;
  }

  predicate SameTable(v: Priv, w: Priv) {
    w.table == v.table && w.submitted == v.submitted && w.gen == v.gen
  }

  /** Tables stay as they are, and no entry is delivered. */
  ghost predicate NoAsync(s: State, t: State)
    requires s.Sized() && t.Sized()
  {
    && t.Size() == s.Size()
    && (forall i :: 0 <= i < s.Size() ==> SameTable(s.privs[i], t.privs[i]))
    && (forall src: nat, g: nat, i: nat :: Deliveries(t.log, src, g, i) == Deliveries(s.log, src, g, i))
  }

  lemma NoAsyncTruthful(s: State, t: State)
    requires s.Sized() && t.Sized() && AllTruthful(s) && NoAsync(s, t)
    ensures AllTruthful(t)
  {
    forall src | 0 <= src < t.Size() ensures SlotTruthful(t, src) {
      assert SlotTruthful(s, src) && SameTable(s.privs[src], t.privs[src]);
    }
  }

  lemma NotAsync(log: seq<Event>, e: Event)
    requires !e.AsyncPlaced?
    ensures forall src: nat, g: nat, i: nat :: Deliveries(log + [e], src, g, i) == Deliveries(log, src, g, i)
  {
    forall src: nat, g: nat, i: nat { DeliveryAppends(log, e, src, g, i); }
  }

  lemma PlaceAsyncTruthful(s: State, src: nat, k: nat, d: nat)
    requires s.Sized() && AllTruthful(s) && src < s.Size() && d < s.Size() && k < |s.privs[src].table|
    requires s.privs[src].table[k].Unfinished() && s.privs[src].table[k].dst == d
    ensures AllTruthful(PlaceAsync(s, src, k, d))
  {
    var v := s.privs[src];
    var e := AsyncPlaced(src, d, v.gen, k, v.table[k].body);
    var t := PlaceAsync(s, src, k, d);
    assert t.log == s.log + [e];
    forall x: nat, g: nat, i: nat ensures Deliveries(t.log, x, g, i) ==
        Deliveries(s.log, x, g, i) + (if x == src && g == v.gen && i == k then [Letter(d, e.body)] else []) {
      DeliveryAppends(s.log, e, x, g, i);
    }
    assert SlotTruthful(s, src) && Truthful(v.submitted[k], v.table[k], Deliveries(s.log, src, v.gen, k));
    forall x | 0 <= x < t.Size() ensures SlotTruthful(t, x) {
      assert SlotTruthful(s, x);
    }
  }

  /** Results other than OK are stored in entries that have not been delivered. */
  predicate Storable(e: Entry, r: Code) { r != OK && (e.Unfinished() || e.Bad()) }

  lemma StoredTruthful(log: seq<Event>, src: nat, v: Priv, w: Priv)
    requires TableTruthful(log, src, v)
    requires w.submitted == v.submitted && w.gen == v.gen && |w.table| == |v.table|
    requires forall i :: 0 <= i < |v.table| ==>
      w.table[i] == v.table[i] || exists r :: Storable(v.table[i], r) && w.table[i] == v.table[i].Store(r)
    ensures TableTruthful(log, src, w)
  {
    forall i | 0 <= i < |w.table| ensures Truthful(w.submitted[i], w.table[i], Deliveries(log, src, w.gen, i)) {
      assert Truthful(v.submitted[i], v.table[i], Deliveries(log, src, v.gen, i));
    }
  }

  lemma OthersTruthful(s: State, t: State, src: nat)
    requires s.Sized() && t.Sized() && AllTruthful(s) && src < s.Size() == t.Size()
    requires t.log == s.log && t.privs == s.privs[src := t.privs[src]] && SlotTruthful(t, src)
    ensures AllTruthful(t)
  {
    forall x | 0 <= x < t.Size() ensures SlotTruthful(t, x) {
      assert SlotTruthful(s, x);
    }
  }

  lemma StoreTruthful(s: State, src: nat, k: nat, r: Code)
    requires s.Sized() && AllTruthful(s) && src < s.Size() && k < |s.privs[src].table|
    requires Storable(s.privs[src].table[k], r)
    ensures AllTruthful(StoreResult(s, src, k, r))
  {
    assert SlotTruthful(s, src);
    StoredTruthful(s.log, src, s.privs[src], StoreResult(s, src, k, r).privs[src]);
    OthersTruthful(s, StoreResult(s, src, k, r), src);
  }

  lemma CancelTruthful(s: State, src: nat, d: nat)
    requires s.Sized() && AllTruthful(s) && src < s.Size()
    ensures AllTruthful(StoreCancel(s, src, d))
  {
    var v := s.privs[src];
    var w := StoreCancel(s, src, d).privs[src];
    forall i | 0 <= i < |v.table|
      ensures w.table[i] == v.table[i] || exists r :: Storable(v.table[i], r) && w.table[i] == v.table[i].Store(r)
    {
      var e := v.table[i];
      if !(e.dst != d || e.Settled()) {
        var r := if e.Bad() then EINVAL else EDEADSRCDST;
        assert Storable(e, r) && w.table[i] == e.Store(r);
      }
    }
    assert SlotTruthful(s, src);
    StoredTruthful(s.log, src, v, w);
    OthersTruthful(s, StoreCancel(s, src, d), src);
  }

  lemma SubmitTruthful(s: State, c: nat, table: seq<Entry>)
    requires s.Sized() && AllTruthful(s) && c < s.Size()
    ensures AllTruthful(Submit(s, c, table))
  {
    assert SlotTruthful(s, c);
    OthersTruthful(s, Submit(s, c, table), c);
  }

  lemma NotifyNoAsync(s: State, src: nat, dst: int)
    requires s.Sized() && src < s.Size()
    ensures NoAsync(s, MiniNotify(s, src, dst).0)
  {
    if OkEndpoint(s, dst) { NotAsync(s.log, Notified(src, dst)); }
  }

  lemma NotifyDoneTruthful(s: State, src: nat, notice: bool)
    requires s.Sized() && AllTruthful(s) && src < s.Size()
    ensures AllTruthful(NotifyDone(s, src, notice))
  {
    if notice {
      NotifyNoAsync(s, ASYNCM, src);
      NoAsyncTruthful(s, MiniNotify(s, ASYNCM, src).0);
    }
  }

  lemma SendaEntryTruthful(a: Scan, c: nat, i: nat)
    requires a.s.Sized() && AllTruthful(a.s) && c < a.s.Size() && i < |a.s.privs[c].table|
    ensures AllTruthful(SendaEntry(a, c, i).s)
  {
    var s := a.s;
    var e := s.privs[c].table[i];
    if e.Unfinished() {
      var r := Refusal(s, c, e.dst);
      if r != OK {
        StoreTruthful(s, c, i, r);
      } else if WillReceive(s.procs[e.dst], c) && (!e.noReply || !s.procs[e.dst].replyPend) {
        PlaceAsyncTruthful(s, c, i, e.dst);
      } else {
        NoAsyncTruthful(s, SetAsyn(s, e.dst, c));
      }
    }
  }

  lemma {:induction false} SendaScanTruthful(a: Scan, c: nat, i: nat)
    requires a.s.Sized() && AllTruthful(a.s) && c < a.s.Size() && i <= |a.s.privs[c].table|
    ensures AllTruthful(SendaScan(a, c, i).s)
    decreases |a.s.privs[c].table| - i
  {
    if i < |a.s.privs[c].table| {
      SendaEntryTruthful(a, c, i);
      SendaScanTruthful(SendaEntry(a, c, i), c, i + 1);
    }
  }

  lemma FinishSendaTruthful(a: Scan, c: nat)
    requires a.s.Sized() && AllTruthful(a.s) && c < a.s.Size()
    ensures AllTruthful(FinishSenda(a, c))
  {
    NotifyDoneTruthful(a.s, c, a.notice);
    var u := NotifyDone(a.s, c, a.notice);
    NoAsyncTruthful(u, Register(u, c, true));
  }

  lemma MiniSendaTruthful(s: State, c: nat, table: seq<Entry>)
    requires s.Sized() && AllTruthful(s) && c < s.Size()
    ensures AllTruthful(MiniSenda(s, c, table).0)
  {
    var a := Scan(Submit(s, c, table), false, false);
    SubmitTruthful(s, c, table);
    SendaScanTruthful(a, c, 0);
    FinishSendaTruthful(SendaScan(a, c, 0), c);
  }

  lemma StillPendingTruthful(s: State, src: nat, d: nat, notice: bool)
    requires s.Sized() && AllTruthful(s) && src < s.Size() && d < s.Size()
    ensures AllTruthful(StillPending(s, src, d, notice))
  {
    NotifyDoneTruthful(s, src, notice);
    NoAsyncTruthful(NotifyDone(s, src, notice), StillPending(s, src, d, notice));
  }

  lemma TryOneTruthful(s: State, src: nat, d: nat)
    requires s.Sized() && AllTruthful(s) && src < s.Size() && d < s.Size()
    ensures AllTruthful(TryOne(s, src, d).0)
  {
    var p := s.privs[src];
    if p.sysProc {
      var s1 := UnsetAsyn(s, d, src);
      NoAsyncTruthful(s, s1);
      if p.registered && d in p.ipcTo {
        var k := StopAt(p.table, d, s.procs[d].replyPend, 0);
        if k == |p.table| {
          NoAsyncTruthful(s1, TryOne(s, src, d).0);
        } else if p.table[k].Bad() {
          StoreTruthful(s1, src, k, EINVAL);
          StillPendingTruthful(StoreResult(s1, src, k, EINVAL), src, d, p.table[k].WantsNotice(EINVAL));
        } else {
          PlaceAsyncTruthful(s1, src, k, d);
          StillPendingTruthful(PlaceAsync(s1, src, k, d), src, d, p.table[k].WantsNotice(OK));
        }
      }
    }
  }

  lemma {:induction false} TryAsyncTruthful(s: State, c: nat, i: nat)
    requires s.Sized() && AllTruthful(s) && c < s.Size()
    ensures AllTruthful(TryAsync(s, c, i).0)
    decreases s.Size() - i
  {
    if i < s.Size() {
      if i in s.privs[c].asynPending {
        var r := TryOne(s, i, c);
        assert TryAsync(s, c, i).0 == if r.1 == OK then r.0 else TryAsync(r.0, c, i + 1).0;
        TryOneTruthful(s, i, c);
        if r.1 != OK { TryAsyncTruthful(r.0, c, i + 1); }
      } else {
        TryAsyncTruthful(s, c, i + 1);
      }
    }
  }

  lemma FinishCancelTruthful(s: State, src: nat, d: nat)
    requires s.Sized() && AllTruthful(s) && src < s.Size()
    ensures AllTruthful(FinishCancel(s, src, d))
  {
    CancelTruthful(s, src, d);
    var t := StoreCancel(s, src, d);
    var notice := CancelNotice(s.privs[src].table, d);
    NotifyDoneTruthful(t, src, notice);
    NoAsyncTruthful(NotifyDone(t, src, notice), FinishCancel(s, src, d));
  }

  lemma CancelAsyncTruthful(s: State, src: nat, d: nat)
    requires s.Sized() && AllTruthful(s) && src < s.Size() && d < s.Size()
    ensures AllTruthful(CancelAsync(s, src, d))
  {
    var t := UnsetAsyn(Register(s, src, false), d, src);
    NoAsyncTruthful(s, t);
    FinishCancelTruthful(t, src, d);
  }
}
