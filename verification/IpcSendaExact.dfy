/** What SENDA does with every entry of the table handed in. */
module IpcSendaExact {
  import opened IpcTypes
  import opened IpcSpec
  import opened IpcInv
  import opened IpcCalls
  import opened IpcRun
  import opened IpcReceives

  // ---------------------------------------------------------------- what is to become of an entry

  predicate InUse(s: State, d: int) { 0 <= d < s.Size() && !s.procs[d].slotFree }

  /** The destination is in use, but is a kernel task or one that the caller may not send to. */
  predicate Denied(s: State, c: nat, e: Entry)
    requires s.Sized() && c < s.Size()
  {
    InUse(s, e.dst) && (e.dst < NR_TASKS || e.dst !in s.privs[c].ipcTo)
  }

  /** There is no such destination, or it is allowed and gone. */
  predicate Dead(s: State, c: nat, e: Entry)
    requires s.Sized() && c < s.Size()
  {
    !InUse(s, e.dst) || (!Denied(s, c, e) && s.procs[e.dst].noEndpoint)
  }

  /** The destination waits for the message and will have it. */
  predicate Ready(s: State, c: nat, e: Entry)
    requires s.Sized() && c < s.Size()
  {
    && e.Unfinished() && !Denied(s, c, e) && !Dead(s, c, e)
    && WillReceive(s.procs[e.dst], c) && !(e.noReply && s.procs[e.dst].replyPend)
  }

  /** Entry `i` is the first for its destination that this will have: a message ends its wait. */
  predicate Served(s: State, c: nat, table: seq<Entry>, i: nat)
    requires s.Sized() && c < s.Size() && i < |table|
  {
    Ready(s, c, table[i]) && forall j :: 0 <= j < i && table[j].dst == table[i].dst ==> !Ready(s, c, table[j])
  }

  /** Entry `i` stays to be delivered later. */
  predicate Stays(s: State, c: nat, table: seq<Entry>, i: nat)
    requires s.Sized() && c < s.Size() && i < |table|
  {
    table[i].Unfinished() && !Denied(s, c, table[i]) && !Dead(s, c, table[i]) && !Served(s, c, table, i)
  }

  /** The entry as SENDA leaves it. */
  function Fate(s: State, c: nat, table: seq<Entry>, i: nat): Entry
    requires s.Sized() && c < s.Size() && i < |table|
  {
    var e := table[i];
    if !e.Unfinished() then e
    else if Denied(s, c, e) then e.(done := true, result := ECALLDENIED)
    else if Dead(s, c, e) then e.(done := true, result := EDEADSRCDST)
    else if Served(s, c, table, i) then e.(done := true, result := OK)
    else e
  }

  /** The owner wants to hear that entry `i` is finished. */
  predicate Tells(s: State, c: nat, table: seq<Entry>, i: nat)
    requires s.Sized() && c < s.Size() && i < |table|
  {
    var e, f := table[i], Fate(s, c, table, i);
    e.Unfinished() && f.done && (e.notify || (f.result != OK && e.notifyErr))
  }

  // ---------------------------------------------------------------- the scan, up to entry i

  ghost predicate TableSo(s: State, c: nat, table: seq<Entry>, u: State, i: nat)
    requires s.Sized() && c < s.Size() && u.Sized() && u.Size() == s.Size()
  {
    && |u.privs[c].table| == |table|
    && forall j :: 0 <= j < |table| ==> u.privs[c].table[j] == if j < i then Fate(s, c, table, j) else table[j]
  }

  predicate SameStanding(p: Proc, q: Proc) {
    q.slotFree == p.slotFree && q.noEndpoint == p.noEndpoint && q.replyPend == p.replyPend && q.sending == p.sending
  }

  /** No entry before `i` has been delivered to `d`. */
  ghost predicate Unserved(s: State, c: nat, table: seq<Entry>, i: nat, d: int)
    requires s.Sized() && c < s.Size() && i <= |table|
  {
    forall j :: 0 <= j < i && Served(s, c, table, j) ==> table[j].dst != d
  }

  ghost predicate ProcsSo(s: State, c: nat, table: seq<Entry>, u: State, i: nat)
    requires s.Sized() && c < s.Size() && u.Sized() && u.Size() == s.Size() && i <= |table|
  {
    && (forall d :: 0 <= d < s.Size() ==> SameStanding(s.procs[d], u.procs[d]))
    && (forall d :: 0 <= d < s.Size() && Unserved(s, c, table, i, d) ==> u.procs[d] == s.procs[d])
    && (forall j :: 0 <= j < i && Served(s, c, table, j) ==> Has(u.procs[table[j].dst], c, table[j].body))
  }

  ghost predicate PrivsSo(s: State, c: nat, table: seq<Entry>, u: State, i: nat)
    requires s.Sized() && c < s.Size() && u.Sized() && u.Size() == s.Size() && i <= |table|
  {
    && u.privs[c].ipcTo == s.privs[c].ipcTo && u.privs[c].notifyPending == s.privs[c].notifyPending && !u.privs[c].registered
    && (forall j :: 0 <= j < i && Stays(s, c, table, j) ==> c in u.privs[table[j].dst].asynPending)
  }

  ghost predicate FlagsSo(s: State, c: nat, table: seq<Entry>, a: Scan, i: nat)
    requires s.Sized() && c < s.Size() && i <= |table|
  {
    && (a.open <==> exists j :: 0 <= j < i && Stays(s, c, table, j))
    && (a.notice <==> exists j :: 0 <= j < i && Tells(s, c, table, j))
  }

  ghost predicate Progress(s: State, c: nat, table: seq<Entry>, a: Scan, i: nat)
    requires s.Sized() && c < s.Size() && i <= |table|
  {
    && a.s.Sized() && a.s.Size() == s.Size()
    && TableSo(s, c, table, a.s, i) && ProcsSo(s, c, table, a.s, i) && PrivsSo(s, c, table, a.s, i) && FlagsSo(s, c, table, a, i)
  }

  // ---------------------------------------------------------------- one round

  /** Where an entry would have been taken, one was. */
  lemma {:induction false} FirstIsServed(s: State, c: nat, table: seq<Entry>, j: nat, d: int)
    requires s.Sized() && c < s.Size() && j < |table| && table[j].dst == d && Ready(s, c, table[j])
    ensures exists k :: 0 <= k <= j && k < |table| && table[k].dst == d && Served(s, c, table, k)
  {
    if !Served(s, c, table, j) {
      var k :| 0 <= k < j && table[k].dst == table[j].dst && Ready(s, c, table[k]);
      FirstIsServed(s, c, table, k, d);
    }
  }

  /** At its turn the destination of entry `i` takes it exactly if it is the first that it will have. */
  lemma AtItsTurn(s: State, c: nat, table: seq<Entry>, u: State, i: nat)
    requires s.Sized() && c < s.Size() && u.Sized() && u.Size() == s.Size() && i < |table|
    requires ProcsSo(s, c, table, u, i) && u.privs[c].ipcTo == s.privs[c].ipcTo && table[i].Unfinished()
    ensures var e := table[i];
      && (Refusal(u, c, e.dst) == if Denied(s, c, e) then ECALLDENIED else if Dead(s, c, e) then EDEADSRCDST else OK)
      && (Refusal(u, c, e.dst) == OK ==>
            (WillReceive(u.procs[e.dst], c) && (!e.noReply || !u.procs[e.dst].replyPend) <==> Served(s, c, table, i)))
      && (Served(s, c, table, i) ==> Unserved(s, c, table, i, e.dst))
  {
    var e := table[i];
    if InUse(s, e.dst) { assert SameStanding(s.procs[e.dst], u.procs[e.dst]); }
    if !Denied(s, c, e) && !Dead(s, c, e) {
      if j :| 0 <= j < i && table[j].dst == e.dst && Ready(s, c, table[j]) {
        FirstIsServed(s, c, table, j, e.dst);
        var k :| 0 <= k <= j && k < |table| && table[k].dst == e.dst && Served(s, c, table, k);
        assert Has(u.procs[table[k].dst], c, table[k].body);
      } else {
        forall j | 0 <= j < i && Served(s, c, table, j) ensures table[j].dst != e.dst {}
        assert Unserved(s, c, table, i, e.dst);
      }
    }
  }

  lemma TableNext(s: State, c: nat, table: seq<Entry>, u: State, v: State, i: nat)
    requires s.Sized() && c < s.Size() && u.Sized() && v.Sized() && u.Size() == v.Size() == s.Size() && i < |table|
    requires TableSo(s, c, table, u, i) && v.privs[c].table == u.privs[c].table[i := Fate(s, c, table, i)]
    ensures TableSo(s, c, table, v, i + 1)
  {
  }

  lemma ProcsNext(s: State, c: nat, table: seq<Entry>, u: State, v: State, i: nat)
    requires s.Sized() && c < s.Size() && u.Sized() && v.Sized() && u.Size() == v.Size() == s.Size() && i < |table|
    requires ProcsSo(s, c, table, u, i)
    requires if Served(s, c, table, i)
      then Unserved(s, c, table, i, table[i].dst) && v.procs == u.procs[table[i].dst :=
        u.procs[table[i].dst].(delivered := Message(c, table[i].body), deliverMsg := true, receiving := false)]
      else v.procs == u.procs
    ensures ProcsSo(s, c, table, v, i + 1)
  {
    forall d | 0 <= d < s.Size() && Unserved(s, c, table, i + 1, d) ensures v.procs[d] == s.procs[d] {
      assert Unserved(s, c, table, i, d);
    }
    forall j | 0 <= j < i + 1 && Served(s, c, table, j) ensures Has(v.procs[table[j].dst], c, table[j].body) {
      if j < i { assert Has(u.procs[table[j].dst], c, table[j].body); }
    }
  }

  predicate SameRights(v: Priv, w: Priv) {
    w.ipcTo == v.ipcTo && w.notifyPending == v.notifyPending && w.registered == v.registered
  }

  lemma PrivsNext(s: State, c: nat, table: seq<Entry>, u: State, v: State, i: nat)
    requires s.Sized() && c < s.Size() && u.Sized() && v.Sized() && u.Size() == v.Size() == s.Size() && i < |table|
    requires PrivsSo(s, c, table, u, i)
    requires SameRights(u.privs[c], v.privs[c])
    requires forall x :: 0 <= x < s.Size() ==> u.privs[x].asynPending <= v.privs[x].asynPending
    requires Stays(s, c, table, i) ==> c in v.privs[table[i].dst].asynPending
    ensures PrivsSo(s, c, table, v, i + 1)
  {
  }

  lemma FlagsNext(s: State, c: nat, table: seq<Entry>, a: Scan, b: Scan, i: nat)
    requires s.Sized() && c < s.Size() && i < |table| && FlagsSo(s, c, table, a, i)
    requires (b.open <==> a.open || Stays(s, c, table, i)) && (b.notice <==> a.notice || Tells(s, c, table, i))
    ensures FlagsSo(s, c, table, b, i + 1)
  {
    var n := i + 1;
    if b.open {
      if Stays(s, c, table, i) { assert 0 <= i < n; } else { var j :| 0 <= j < i && Stays(s, c, table, j); assert 0 <= j < n; }
    }
    if b.notice {
      if Tells(s, c, table, i) { assert 0 <= i < n; } else { var j :| 0 <= j < i && Tells(s, c, table, j); assert 0 <= j < n; }
    }
  }

  /** What one round of the scan does to the state, by the fate of its entry. */
  lemma RoundDoes(s: State, c: nat, table: seq<Entry>, a: Scan, i: nat)
    requires s.Sized() && c < s.Size() && i < |table| && c !in s.privs[c].ipcTo && Progress(s, c, table, a, i)
    ensures var u, b := a.s, SendaEntry(a, c, i);
      && b.s.privs[c].table == u.privs[c].table[i := Fate(s, c, table, i)]
      && (Served(s, c, table, i) ==> Unserved(s, c, table, i, table[i].dst))
      && b.s.procs == (if Served(s, c, table, i) then u.procs[table[i].dst :=
           u.procs[table[i].dst].(delivered := Message(c, table[i].body), deliverMsg := true, receiving := false)] else u.procs)
  {
    var u, e := a.s, table[i];
    assert u.privs[c].table[i] == e;
    if e.Unfinished() { AtItsTurn(s, c, table, u, i); }
  }

  lemma RoundPrivs(s: State, c: nat, table: seq<Entry>, a: Scan, i: nat)
    requires s.Sized() && c < s.Size() && i < |table| && c !in s.privs[c].ipcTo && Progress(s, c, table, a, i)
    ensures var u, v := a.s, SendaEntry(a, c, i).s;
      && SameRights(u.privs[c], v.privs[c])
      && (forall x :: 0 <= x < s.Size() ==> u.privs[x].asynPending <= v.privs[x].asynPending)
      && (Stays(s, c, table, i) ==> c in v.privs[table[i].dst].asynPending)
  {
    var u, e := a.s, table[i];
    assert u.privs[c].table[i] == e;
    if e.Unfinished() { AtItsTurn(s, c, table, u, i); }
  }

  lemma RoundFlags(s: State, c: nat, table: seq<Entry>, a: Scan, i: nat)
    requires s.Sized() && c < s.Size() && i < |table| && c !in s.privs[c].ipcTo && Progress(s, c, table, a, i)
    ensures var b := SendaEntry(a, c, i);
      && (b.open <==> a.open || Stays(s, c, table, i)) && (b.notice <==> a.notice || Tells(s, c, table, i))
  {
    var u, e := a.s, table[i];
    assert u.privs[c].table[i] == e;
    if e.Unfinished() { AtItsTurn(s, c, table, u, i); }
  }

  lemma Round(s: State, c: nat, table: seq<Entry>, a: Scan, i: nat)
    requires s.Sized() && c < s.Size() && i < |table| && c !in s.privs[c].ipcTo && Progress(s, c, table, a, i)
    ensures Progress(s, c, table, SendaEntry(a, c, i), i + 1)
  {
    var b := SendaEntry(a, c, i);
    RoundDoes(s, c, table, a, i);
    TableNext(s, c, table, a.s, b.s, i);
    ProcsNext(s, c, table, a.s, b.s, i);
    RoundPrivs(s, c, table, a, i);
    PrivsNext(s, c, table, a.s, b.s, i);
    RoundFlags(s, c, table, a, i);
    FlagsNext(s, c, table, a, b, i);
  }

  lemma {:induction false} ScanDoes(s: State, c: nat, table: seq<Entry>, a: Scan, i: nat)
    requires s.Sized() && c < s.Size() && i <= |table| && c !in s.privs[c].ipcTo && Progress(s, c, table, a, i)
    ensures Progress(s, c, table, SendaScan(a, c, i), |table|)
    decreases |table| - i
  {
    if i < |table| {
      Round(s, c, table, a, i);
      ScanDoes(s, c, table, SendaEntry(a, c, i), i + 1);
    }
  }

  // ---------------------------------------------------------------- the whole call

  /** The outcome of a SENDA: refused without effect, or every entry has met its fate, what stays is registered
      and known to its destination, who was served has the message, and the owner is told if it wants to be. */
  ghost predicate SendaOutcome(s: State, c: nat, table: seq<Entry>, o: (State, Code))
    requires s.Sized() && c < s.Size()
  {
    && (o.1 == EDOM <==> |table| > 16 * s.Size())
    && (o.1 == EPERM <==> |table| <= 16 * s.Size() && !s.privs[c].sysProc)
    && (o.1 != OK ==> o.0 == s && (o.1 == EDOM || o.1 == EPERM))
    && (o.1 == OK ==> Handled(s, c, table, o.0))
  }

  ghost predicate Handled(s: State, c: nat, table: seq<Entry>, t: State)
    requires s.Sized() && c < s.Size()
  {
    && t.Sized() && t.Size() == s.Size() && t.queues == s.queues
    && TableSo(s, c, table, t, |table|) && ProcsSo(s, c, table, t, |table|)
    && (t.privs[c].registered <==> exists j :: 0 <= j < |table| && Stays(s, c, table, j))
    && (forall j :: 0 <= j < |table| && Stays(s, c, table, j) ==> c in t.privs[table[j].dst].asynPending)
    && t.privs[c].notifyPending == s.privs[c].notifyPending +
         (if exists j :: 0 <= j < |table| && Tells(s, c, table, j) then {ASYNCM} else {})
  }

  lemma StartsSo(s: State, c: nat, table: seq<Entry>)
    requires s.Sized() && c < s.Size()
    ensures Progress(s, c, table, Scan(Submit(s, c, table), false, false), 0)
  {
  }

  lemma FinishDoes(s: State, c: nat, table: seq<Entry>, a: Scan)
    requires s.Sized() && c < s.Size() && Progress(s, c, table, a, |table|) && a.s.queues == s.queues
    requires !s.procs[c].receiving && !s.procs[c].slotFree && Unserved(s, c, table, |table|, c)
    ensures Handled(s, c, table, FinishSenda(a, c))
  {
    assert a.s.procs[c] == s.procs[c];
    var t := FinishSenda(a, c);
    assert t.procs == a.s.procs && t.privs[c].table == a.s.privs[c].table;
  }

  /** SENDA by a process that may make the call. */
  lemma SendaExact(s: State, c: nat, table: seq<Entry>)
    requires Core(s) && MayTrap(s, c)
    ensures SendaOutcome(s, c, table, MiniSenda(s, c, table))
  {
    assert Local(c, s.procs[c], s.privs[c]);
    if |table| <= 16 * s.Size() && s.privs[c].sysProc {
      var a := Scan(Submit(s, c, table), false, false);
      StartsSo(s, c, table);
      ScanDoes(s, c, table, a, 0);
      assert Unserved(s, c, table, |table|, c);
      FinishDoes(s, c, table, SendaScan(a, c, 0));
    }
  }
}
