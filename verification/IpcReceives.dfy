/** Which message a receive takes: a notification, an asynchronous message, a queued one, or none. */
module IpcReceives {
  import opened IpcTypes
  import opened WaitGraph
  import opened Lists
  import opened IpcSpec
  import opened IpcInv
  import opened IpcCalls
  import opened IpcRun
  import opened IpcOrder
  import opened IpcResults
  import opened IpcDeaf
  import IpcAccepts
  import IpcTheorems
  import SysMap

  // ---------------------------------------------------------------- notifications

  /** `x` has the lowest bit of those in `bits` that `from` accepts. */
  ghost predicate Lowest(bits: set<nat>, from: Target, x: nat) {
    x in bits && Accepts(from, x) && forall y :: y in bits && y < x ==> !Accepts(from, y)
  }

  lemma HasPendingExact(bits: set<nat>, from: Target, n: nat)
    requires forall x :: x in bits ==> x < n
    ensures var r := HasPending(bits, from, n);
      if r.Some? then Lowest(bits, from, r.value) else forall x :: x in bits ==> !Accepts(from, x)
  {
    SysMap.ScanLowest(bits, 0, n);
  }

  /** The lowest accepted notification of `c` has been taken, and nothing else has changed. */
  ghost predicate NoticeTaken(s: State, t: State, c: nat, from: Target, x: nat)
    requires s.Sized() && c < s.Size()
  {
    && Lowest(s.privs[c].notifyPending, from, x)
    && t.procs == s.procs[c := s.procs[c].(delivered := Message(x, Notification), deliverMsg := true,
                                           receiving := false, replyPend := false)]
    && t.privs == s.privs[c := s.privs[c].(notifyPending := s.privs[c].notifyPending - {x})]
    && t.queues == s.queues && t.log == s.log + [Notified(x, c)]
  }

  lemma TakeNoticeExact(s: State, c: nat, from: Target, x: nat)
    requires s.Sized() && c < s.Size() && Lowest(s.privs[c].notifyPending, from, x)
    ensures NoticeTaken(s, TakeNotice(s, c, x), c, from, x)
  {
    var t := TakeNotice(s, c, x);
    assert t.procs == s.procs[c := t.procs[c]];
  }

  // ---------------------------------------------------------------- asynchronous messages

  /** `e` is a message for `c` that may be delivered now. */
  predicate Fits(e: Entry, c: nat, reply: bool) { e.Unfinished() && e.dst == c && !(e.noReply && reply) }

  /** Entry `k` is the one for `c` in table `t`, and nothing malformed stands before it. */
  ghost predicate Next(t: seq<Entry>, c: nat, reply: bool, k: nat) {
    k < |t| && Fits(t[k], c, reply) && forall j :: 0 <= j < k ==> !t[j].Bad() && !Fits(t[j], c, reply)
  }

  /** `src` has a message for `c` in its registered table, as entry `k`, and may send it. */
  ghost predicate Offers(s: State, src: nat, c: nat, k: nat)
    requires s.Sized() && c < s.Size()
  {
    && src < s.Size() && s.privs[src].sysProc && s.privs[src].registered && c in s.privs[src].ipcTo
    && Next(s.privs[src].table, c, s.procs[c].replyPend, k)
  }

  ghost predicate Offering(s: State, src: nat, c: nat)
    requires s.Sized() && c < s.Size()
  {
    exists k: nat :: Offers(s, src, c, k)
  }

  lemma {:induction false} StopAtExact(t: seq<Entry>, c: nat, reply: bool, i: nat)
    requires i <= |t|
    ensures var k := StopAt(t, c, reply, i);
      && (forall j :: i <= j < k ==> !t[j].Bad() && !Fits(t[j], c, reply))
      && (k < |t| ==> t[k].Bad() || Fits(t[k], c, reply))
    decreases |t| - i
  {
    if i < |t| && !t[i].Bad() && !Fits(t[i], c, reply) { StopAtExact(t, c, reply, i + 1); }
  }

  /** There is at most one such entry, and it is where the scan stops. */
  lemma OfferedEntry(s: State, src: nat, c: nat)
    requires s.Sized() && c < s.Size() && src < s.Size()
    ensures var p := s.privs[src]; var k := StopAt(p.table, c, s.procs[c].replyPend, 0);
      Offering(s, src, c) <==> p.sysProc && p.registered && c in p.ipcTo && k < |p.table| && !p.table[k].Bad()
    ensures forall k: nat :: Offers(s, src, c, k) ==> k == StopAt(s.privs[src].table, c, s.procs[c].replyPend, 0)
  {
    var p := s.privs[src];
    var k := StopAt(p.table, c, s.procs[c].replyPend, 0);
    StopAtExact(p.table, c, s.procs[c].replyPend, 0);
    if p.sysProc && p.registered && c in p.ipcTo && k < |p.table| && !p.table[k].Bad() { assert Offers(s, src, c, k); }
  }

  /** Entry `k` of `src` is in the buffer of `c`. */
  predicate Got(s: State, t: State, src: nat, c: nat, k: nat)
    requires s.Sized() && src < s.Size() && c < s.Size() && k < |s.privs[src].table| && t.Sized() && t.Size() == s.Size()
  {
    t.procs[c] == s.procs[c].(delivered := Message(src, s.privs[src].table[k].body), deliverMsg := true, receiving := false)
  }

  /** try_one delivers exactly if there is such an entry, and delivers that one. */
  lemma TryOneDelivers(s: State, src: nat, c: nat)
    requires s.Sized() && c < s.Size() && src < s.Size() && src != c
    ensures var (t, r) := TryOne(s, src, c);
      && (r == OK <==> Offering(s, src, c))
      && (forall k: nat :: Offers(s, src, c, k) ==> Got(s, t, src, c, k))
  {
    OfferedEntry(s, src, c);
    var p := s.privs[src];
    var k := StopAt(p.table, c, s.procs[c].replyPend, 0);
    if p.sysProc && p.registered && c in p.ipcTo && k < |p.table| && !p.table[k].Bad() {
      var s1 := UnsetAsyn(s, c, src);
      StillPendingSame(PlaceAsync(s1, src, k, c), src, c, p.table[k].WantsNotice(OK));
      assert Got(s, TryOne(s, src, c).0, src, c, k);
    }
  }

  /** An attempt with `i` leaves what others offer to `c`. */
  lemma TryOneOthers(s: State, i: nat, c: nat, src: nat)
    requires s.Sized() && c < s.Size() && i < s.Size() && i != c && i in s.privs[c].asynPending
    requires src < s.Size() && src != i && src != c
    requires TryOne(s, i, c).1 != OK
    ensures var t := TryOne(s, i, c).0;
      && t.procs[c] == s.procs[c] && t.privs[src] == s.privs[src]
      && (src in t.privs[c].asynPending <==> src in s.privs[c].asynPending)
      && c !in t.privs[c].asynPending - s.privs[c].asynPending
  {
    TryOneFrame(s, i, c);
  }

  /** `src` is the first from `i` on that has its bit set and a message for `c`. */
  ghost predicate FirstOffer(s: State, c: nat, i: nat, src: nat)
    requires s.Sized() && c < s.Size()
  {
    && i <= src && src in s.privs[c].asynPending && Offering(s, src, c)
    && forall x :: i <= x < src && x in s.privs[c].asynPending ==> !Offering(s, x, c)
  }

  lemma SameOffers(s: State, t: State, c: nat, src: nat)
    requires s.Sized() && t.Sized() && c < s.Size() == t.Size() && src < s.Size()
    requires t.procs[c] == s.procs[c] && t.privs[src] == s.privs[src]
    ensures forall k: nat :: Offers(t, src, c, k) <==> Offers(s, src, c, k)
    ensures Offering(t, src, c) <==> Offering(s, src, c)
  {
    forall k: nat ensures Offers(t, src, c, k) <==> Offers(s, src, c, k) {}
    if k: nat :| Offers(s, src, c, k) { assert Offers(t, src, c, k); }
    if k: nat :| Offers(t, src, c, k) { assert Offers(s, src, c, k); }
  }

  /** The outcome `o` is OK exactly if somebody from `i` on has a message for `c`, and then the message of the
      first of them is in the buffer of `c`. */
  ghost predicate AsyncTaken(s: State, c: nat, i: nat, o: (State, Code))
    requires s.Sized() && c < s.Size() && o.0.Sized() && o.0.Size() == s.Size()
  {
    && (o.1 == OK <==> exists src: nat :: FirstOffer(s, c, i, src))
    && (forall src: nat, k: nat :: FirstOffer(s, c, i, src) && Offers(s, src, c, k) ==> Got(s, o.0, src, c, k))
  }

  /** try_async delivers exactly if somebody with its bit set has a message for `c`, and takes it from the
      first of them. */
  lemma {:induction false} TryAsyncDelivers(s: State, c: nat, i: nat)
    requires s.Shape() && c < s.Size() && c !in s.privs[c].asynPending
    ensures AsyncTaken(s, c, i, TryAsync(s, c, i))
    decreases s.Size() - i
  {
    if i >= s.Size() {
      NobodyLeft(s, c, i);
    } else if i !in s.privs[c].asynPending {
      TryAsyncDelivers(s, c, i + 1);
      NotTried(s, c, i, TryAsync(s, c, i + 1));
    } else if TryOne(s, i, c).1 == OK {
      TriedWell(s, c, i);
    } else {
      var t := TryOne(s, i, c).0;
      AfterVainTry(s, c, i);
      TryAsyncDelivers(t, c, i + 1);
      assert TryAsync(s, c, i) == TryAsync(t, c, i + 1);
      TriedInVain(s, c, i, TryAsync(t, c, i + 1));
    }
  }

  lemma NotTried(s: State, c: nat, i: nat, o: (State, Code))
    requires s.Shape() && c < s.Size() && i < s.Size() && i !in s.privs[c].asynPending
    requires o.0.Sized() && o.0.Size() == s.Size() && AsyncTaken(s, c, i + 1, o)
    ensures AsyncTaken(s, c, i, o)
  {
    SkipOffers(s, c, i);
    MovedOn(s, s, c, i, o);
  }

  lemma TriedWell(s: State, c: nat, i: nat)
    requires s.Shape() && c < s.Size() && i < s.Size() && i != c && i in s.privs[c].asynPending && TryOne(s, i, c).1 == OK
    ensures AsyncTaken(s, c, i, TryOne(s, i, c))
  {
    TryOneDelivers(s, i, c);
    FoundHere(s, c, i, TryOne(s, i, c));
  }

  lemma TriedInVain(s: State, c: nat, i: nat, o: (State, Code))
    requires s.Shape() && c < s.Size() && i < s.Size() && i != c && i in s.privs[c].asynPending && c !in s.privs[c].asynPending
    requires TryOne(s, i, c).1 != OK && o.0.Sized() && o.0.Size() == s.Size() && AsyncTaken(TryOne(s, i, c).0, c, i + 1, o)
    ensures AsyncTaken(s, c, i, o)
  {
    TryOneDelivers(s, i, c);
    AfterVainTry(s, c, i);
    LaterOffers(s, TryOne(s, i, c).0, c, i);
    MovedOn(s, TryOne(s, i, c).0, c, i, o);
  }

  lemma NobodyLeft(s: State, c: nat, i: nat)
    requires s.Shape() && c < s.Size() && i >= s.Size()
    ensures AsyncTaken(s, c, i, (s, ESRCH))
  {
    forall src: nat ensures !FirstOffer(s, c, i, src) {}
  }

  lemma FoundHere(s: State, c: nat, i: nat, o: (State, Code))
    requires s.Sized() && c < s.Size() && i < s.Size() && o.0.Sized() && o.0.Size() == s.Size() && o.1 == OK
    requires i in s.privs[c].asynPending && Offering(s, i, c)
    requires forall k: nat :: Offers(s, i, c, k) ==> Got(s, o.0, i, c, k)
    ensures AsyncTaken(s, c, i, o)
  {
    assert FirstOffer(s, c, i, i);
    forall src: nat, k: nat | FirstOffer(s, c, i, src) && Offers(s, src, c, k) ensures Got(s, o.0, src, c, k) {
      assert src == i;
    }
  }

  /** The first offer to `c` from `i` on in `s` is the first one from `i + 1` on in `t`, of the same message. */
  ghost predicate SameFirst(s: State, t: State, c: nat, i: nat)
    requires s.Sized() && t.Sized() && c < s.Size() == t.Size()
  {
    && t.procs[c] == s.procs[c]
    && (forall src: nat :: FirstOffer(t, c, i + 1, src) <==> FirstOffer(s, c, i, src))
    && (forall src: nat :: FirstOffer(s, c, i, src) ==> src < s.Size() && t.privs[src] == s.privs[src])
  }

  lemma MovedOn(s: State, t: State, c: nat, i: nat, o: (State, Code))
    requires s.Sized() && t.Sized() && c < s.Size() == t.Size() && SameFirst(s, t, c, i)
    requires o.0.Sized() && o.0.Size() == s.Size() && AsyncTaken(t, c, i + 1, o)
    ensures AsyncTaken(s, c, i, o)
  {
    var j := i + 1;
    if src: nat :| FirstOffer(s, c, i, src) { assert FirstOffer(t, c, j, src); }
    if src: nat :| FirstOffer(t, c, j, src) { assert FirstOffer(s, c, i, src); }
    forall src: nat, k: nat | FirstOffer(s, c, i, src) && Offers(s, src, c, k) ensures Got(s, o.0, src, c, k) {
      assert FirstOffer(t, c, j, src) && Offers(t, src, c, k);
    }
  }

  /** A vain try with `i` leaves what others have for `c`. */
  ghost predicate OthersLeft(s: State, t: State, c: nat, i: nat)
    requires s.Sized() && t.Sized() && c < s.Size() == t.Size()
  {
    && t.procs[c] == s.procs[c] && c !in t.privs[c].asynPending && c !in s.privs[c].asynPending
    && forall x: nat :: x < s.Size() && x != i && x != c ==> OtherLeft(s, t, c, x)
  }

  predicate OtherLeft(s: State, t: State, c: nat, x: nat)
    requires s.Sized() && t.Sized() && c < s.Size() == t.Size() && x < s.Size()
  {
    t.privs[x] == s.privs[x] && (x in t.privs[c].asynPending <==> x in s.privs[c].asynPending)
  }

  lemma AfterVainTry(s: State, c: nat, i: nat)
    requires s.Shape() && c < s.Size() && i < s.Size() && i != c && i in s.privs[c].asynPending && c !in s.privs[c].asynPending
    requires TryOne(s, i, c).1 != OK
    ensures OthersLeft(s, TryOne(s, i, c).0, c, i)
  {
    TryOneFrame(s, i, c);
    forall x: nat | x < s.Size() && x != i && x != c ensures OtherLeft(s, TryOne(s, i, c).0, c, x) { TryOneOthers(s, i, c, x); }
  }

  lemma LaterOffers(s: State, t: State, c: nat, i: nat)
    requires s.Shape() && t.Shape() && c < s.Size() == t.Size() && i < s.Size() && i in s.privs[c].asynPending && !Offering(s, i, c)
    requires OthersLeft(s, t, c, i)
    ensures SameFirst(s, t, c, i)
  {
    forall x: nat | i < x && (x in s.privs[c].asynPending || x in t.privs[c].asynPending)
      ensures OtherLeft(s, t, c, x) && (Offering(t, x, c) <==> Offering(s, x, c))
    {
      assert OtherLeft(s, t, c, x);
      SameOffers(s, t, c, x);
    }
    forall src: nat ensures FirstOffer(t, c, i + 1, src) <==> FirstOffer(s, c, i, src) { SameFirstOffer(s, t, c, i, src); }
  }

  lemma SameFirstOffer(s: State, t: State, c: nat, i: nat, src: nat)
    requires s.Sized() && t.Sized() && c < s.Size() == t.Size() && i in s.privs[c].asynPending && !Offering(s, i, c)
    requires forall x: nat :: i < x && (x in s.privs[c].asynPending || x in t.privs[c].asynPending) ==>
      (x in t.privs[c].asynPending <==> x in s.privs[c].asynPending) && (Offering(t, x, c) <==> Offering(s, x, c))
    ensures FirstOffer(t, c, i + 1, src) <==> FirstOffer(s, c, i, src)
  {
  }

  lemma SkipOffers(s: State, c: nat, i: nat)
    requires s.Shape() && c < s.Size() && i !in s.privs[c].asynPending
    ensures SameFirst(s, s, c, i)
  {
  }

  /** `src` is the first accepted sender whose bit is set and that has a message for `c`. */
  ghost predicate AsyncFor(s: State, c: nat, from: Target, src: nat)
    requires s.Sized() && c < s.Size()
  {
    && src in s.privs[c].asynPending && Accepts(from, src) && Offering(s, src, c)
    && forall x :: x < src && x in s.privs[c].asynPending && Accepts(from, x) ==> !Offering(s, x, c)
  }

  /** The look for asynchronous messages finds one exactly if there is one, the first, and leaves `c` alone if not. */
  ghost predicate PendingOutcome(s: State, c: nat, from: Target, o: (State, Code))
    requires s.Sized() && c < s.Size() && o.0.Sized() && o.0.Size() == s.Size()
  {
    && (o.1 == OK <==> exists src: nat :: AsyncFor(s, c, from, src))
    && (forall src: nat, k: nat :: AsyncFor(s, c, from, src) && Offers(s, src, c, k) ==> Got(s, o.0, src, c, k))
    && (o.1 != OK ==> o.0.procs[c] == s.procs[c])
  }

  lemma PendingDelivers(s: State, c: nat, from: Target)
    requires Core(s) && c < s.Size() && (from.Ep? ==> 0 <= from.e < s.Size()) && Idle(s.procs[c])
    ensures PendingOutcome(s, c, from, TryPending(s, c, from))
  {
    assert Local(c, s.procs[c], s.privs[c]);
    PendingFrame(s, c, from);
    if from == ANY {
      AnyDelivers(s, c);
    } else {
      NamedDelivers(s, c, from.e);
    }
  }

  lemma AnyDelivers(s: State, c: nat)
    requires s.Shape() && c < s.Size() && c !in s.privs[c].asynPending
    ensures var o := TryPending(s, c, ANY);
      && (o.1 == OK <==> exists src: nat :: AsyncFor(s, c, ANY, src))
      && (forall src: nat, k: nat :: AsyncFor(s, c, ANY, src) && Offers(s, src, c, k) ==> Got(s, o.0, src, c, k))
  {
    HasPendingExact(s.privs[c].asynPending, ANY, s.Size());
    TryAsyncDelivers(s, c, 0);
    forall src: nat ensures AsyncFor(s, c, ANY, src) <==> FirstOffer(s, c, 0, src) {}
    if src: nat :| FirstOffer(s, c, 0, src) { assert AsyncFor(s, c, ANY, src); }
    if src: nat :| AsyncFor(s, c, ANY, src) { assert FirstOffer(s, c, 0, src); }
  }

  lemma NamedDelivers(s: State, c: nat, e: nat)
    requires s.Shape() && c < s.Size() && e < s.Size() && c !in s.privs[c].asynPending
    ensures var o := TryPending(s, c, Ep(e));
      && (o.1 == OK <==> exists src: nat :: AsyncFor(s, c, Ep(e), src))
      && (forall src: nat, k: nat :: AsyncFor(s, c, Ep(e), src) && Offers(s, src, c, k) ==> Got(s, o.0, src, c, k))
  {
    OnlyNamed(s, c, e);
    if e in s.privs[c].asynPending {
      TryOneDelivers(s, e, c);
      if Offering(s, e, c) { assert AsyncFor(s, c, Ep(e), e); }
    }
  }

  lemma OnlyNamed(s: State, c: nat, e: nat)
    requires s.Sized() && c < s.Size()
    ensures forall src: nat :: AsyncFor(s, c, Ep(e), src) <==> src == e && e in s.privs[c].asynPending && Offering(s, e, c)
  {
  }

  // ---------------------------------------------------------------- queued messages

  /** `p` is the first on `q` that `from` accepts. */
  ghost predicate FirstOf(q: seq<nat>, from: Target, p: nat) {
    exists i :: 0 <= i < |q| && q[i] == p && Accepts(from, p) && forall j :: 0 <= j < i ==> !Accepts(from, q[j])
  }

  lemma {:induction false} FirstSenderExact(q: seq<nat>, from: Target)
    ensures var r := FirstSender(q, from);
      if r.Some? then FirstOf(q, from, r.value) else forall i :: 0 <= i < |q| ==> !Accepts(from, q[i])
  {
    if q != [] && !Accepts(from, q[0]) {
      FirstSenderExact(q[1..], from);
      var r := FirstSender(q[1..], from);
      if r.Some? {
        var i :| 0 <= i < |q[1..]| && q[1..][i] == r.value && forall j :: 0 <= j < i ==> !Accepts(from, q[1..][j]);
        var k := i + 1;
        forall j | 0 <= j < k ensures !Accepts(from, q[j]) { if j > 0 { assert q[1..][j - 1] == q[j]; } }
        assert q[k] == r.value;
      } else {
        forall i | 0 <= i < |q| ensures !Accepts(from, q[i]) { if i > 0 { assert q[1..][i - 1] == q[i]; } }
      }
    }
  }

  /** The message of the first accepted sender on the queue of `c` is in the buffer of `c`. */
  ghost predicate QueuedTaken(s: State, t: State, c: nat, from: Target, p: nat)
    requires s.Sized() && t.Sized() && t.Size() == s.Size() && c < s.Size() && p < s.Size()
  {
    && FirstOf(s.queues[c], from, p) && Takes(s, t, c, p)
    && t.procs[c] == s.procs[c].(delivered := Message(p, s.procs[p].sendMsg), deliverMsg := true,
                                 receiving := false, replyPend := false)
  }

  // ---------------------------------------------------------------- the whole receive

  ghost predicate NoticeWaits(s: State, c: nat, from: Target)
    requires s.Sized() && c < s.Size()
  {
    exists x :: x in s.privs[c].notifyPending && Accepts(from, x)
  }

  ghost predicate AsyncWaits(s: State, c: nat, from: Target)
    requires s.Sized() && c < s.Size()
  {
    exists src: nat :: AsyncFor(s, c, from, src)
  }

  ghost predicate QueuedWaits(s: State, c: nat, from: Target)
    requires s.Sized() && c < s.Size()
  {
    exists i :: 0 <= i < |s.queues[c]| && Accepts(from, s.queues[c][i])
  }

  /** The outcome `o` of a receive by `c` from `from`, which finds `u` after its look for asynchronous messages. */
  ghost predicate ReceiveOutcome(s: State, c: nat, from: Target, u: State, o: (State, Code))
    requires s.Shape() && c < s.Size() && (from.Ep? ==> 0 <= from.e < s.Size()) && o.0.Sized() && o.0.Size() == s.Size()
    requires u.Sized() && u.Size() == s.Size()
  {
    if from.Ep? && s.procs[from.e].noEndpoint then o == (s, EDEADSRCDST)
    else if !s.procs[c].replyPend && NoticeWaits(s, c, from) then o.1 == OK && exists x :: NoticeTaken(s, o.0, c, from, x)
    else if AsyncWaits(s, c, from) then
      && o.1 == OK && o.0.queues == s.queues && !o.0.procs[c].replyPend
      && forall src: nat, k: nat :: AsyncFor(s, c, from, src) && Offers(s, src, c, k) ==>
           Has(o.0.procs[c], src, s.privs[src].table[k].body)
    else if QueuedWaits(s, c, from) then
      o.1 == OK && exists p: nat :: p < s.Size() && QueuedTaken(s, o.0, c, from, p)
    else
      && o.0.queues == s.queues
      && (o.1 == ELOCKED <==> from.Ep? && Reaches(Waits(u), from.e, c))
      && (o.1 == ELOCKED ==> o.0 == u && o.0.procs[c] == s.procs[c])
      && (o.1 != ELOCKED ==>
            o.1 == OK && o.0.privs == u.privs && o.0.procs == u.procs[c := s.procs[c].(receiving := true, getFrom := from)])
  }

  predicate Has(p: Proc, src: nat, b: Body) { p.deliverMsg && p.delivered == Message(src, b) && !p.receiving }

  lemma ReceiveQueuedExact(s: State, u: State, c: nat, from: Target)
    requires Core(s) && c < s.Size() && (from.Ep? ==> 0 <= from.e < s.Size()) && Idle(s.procs[c]) && from != Ep(c)
    requires Aside(s, u) && u.Shape() && Core(u) && u.procs[c] == s.procs[c]
    ensures var o := ReceiveQueued(u, c, from);
      if QueuedWaits(s, c, from) then o.1 == OK && exists p: nat :: p < s.Size() && QueuedTaken(s, o.0, c, from, p)
      else
        && o.0.queues == s.queues
        && (o.1 == ELOCKED <==> from.Ep? && Reaches(Waits(u), from.e, c))
        && (o.1 == ELOCKED ==> o.0 == u && o.0.procs[c] == s.procs[c])
        && (o.1 != ELOCKED ==>
              o.1 == OK && o.0.privs == u.privs && o.0.procs == u.procs[c := s.procs[c].(receiving := true, getFrom := from)])
  {
    FirstSenderExact(s.queues[c], from);
    var p := FirstSender(s.queues[c], from);
    if p.Some? {
      QueuedIs(s, u, c, from, p.value);
    } else if from.Ep? {
      NotOnQueue(u, c, from.e);
      ReceiveDeadlockExact(u, c, from.e);
    }
  }

  lemma NotOnQueue(u: State, c: nat, e: nat)
    requires c < |u.queues| && forall i :: 0 <= i < |u.queues[c]| ==> !Accepts(Ep(e), u.queues[c][i])
    ensures e !in u.queues[c]
  {
  }

  lemma QueuedIs(s: State, u: State, c: nat, from: Target, p: nat)
    requires Core(s) && c < s.Size() && Aside(s, u) && u.Shape() && u.procs[c] == s.procs[c] && !s.procs[c].sending
    requires p in s.queues[c] && FirstOf(s.queues[c], from, p)
    ensures p < s.Size() && QueuedTaken(s, TakeQueued(u, c, p), c, from, p)
  {
    assert s.procs[p].sending && p != c;
    TakeQueuedTakes(s, u, c, p);
  }

  /** mini_receive by a process that is not sending. */
  lemma ReceiveExact(s: State, c: nat, from: Target)
    requires Core(s) && c < s.Size() && (from.Ep? ==> 0 <= from.e < s.Size()) && Idle(s.procs[c]) && from != Ep(c)
    ensures ReceiveOutcome(s, c, from, TryPending(s, c, from).0, MiniReceive(s, c, from))
  {
    HasPendingExact(s.privs[c].notifyPending, from, s.Size());
    var id := HasPending(s.privs[c].notifyPending, from, s.Size());
    if from.Ep? && s.procs[from.e].noEndpoint {
    } else if !s.procs[c].replyPend && id.Some? {
      TakeNoticeExact(s, c, from, id.value);
    } else {
      RestExact(s, c, from);
    }
  }

  lemma RestExact(s: State, c: nat, from: Target)
    requires Core(s) && c < s.Size() && (from.Ep? ==> 0 <= from.e < s.Size()) && Idle(s.procs[c]) && from != Ep(c)
    requires !(from.Ep? && s.procs[from.e].noEndpoint) && (s.procs[c].replyPend || !NoticeWaits(s, c, from))
    requires s.procs[c].replyPend || HasPending(s.privs[c].notifyPending, from, s.Size()).None?
    ensures ReceiveOutcome(s, c, from, TryPending(s, c, from).0, MiniReceive(s, c, from))
  {
    var (u, r) := TryPending(s, c, from);
    PendingDelivers(s, c, from);
    if r != OK {
      TryPendingKeeps(s, c, from);
      ReceiveQueuedExact(s, u, c, from);
    }
  }

  /** A RECEIVE that is permitted, and does not name its caller, has the outcome of a receive. */
  lemma CallReceives(s: State, c: nat, to: Target, msg: Option<Body>)
    requires Core(s) && MayTrap(s, c) && Permitted(s, c, RECEIVE, to) && to != Ep(c)
    ensures var u := s.With(c, s.procs[c].(replyPend := false));
      ReceiveOutcome(u, c, to, TryPending(u, c, to).0, DoSyncIpc(s, c, RECEIVE, to, msg))
  {
    assert Denial(s, c, RECEIVE, to) == OK;
    ClearReplyKeeps(s, c);
    ReceiveExact(ClearReply(s, c), c, to);
  }

  /** One that names its caller takes a notification of the caller to itself, or waits for itself. */
  lemma CallReceivesSelf(s: State, c: nat, msg: Option<Body>)
    requires Core(s) && MayTrap(s, c) && Permitted(s, c, RECEIVE, Ep(c))
    ensures var u := s.With(c, s.procs[c].(replyPend := false));
      var (t, r) := DoSyncIpc(s, c, RECEIVE, Ep(c), msg);
      && r == OK
      && if c in s.privs[c].notifyPending then NoticeTaken(u, t, c, Ep(c), c)
         else t == u.With(c, u.procs[c].(receiving := true, getFrom := Ep(c)))
  {
    var u := ClearReply(s, c);
    assert Denial(s, c, RECEIVE, Ep(c)) == OK;
    ClearReplyKeeps(s, c);
    HasPendingExact(u.privs[c].notifyPending, Ep(c), u.Size());
    if c in s.privs[c].notifyPending {
      assert Lowest(u.privs[c].notifyPending, Ep(c), c);
      TakeNoticeExact(u, c, Ep(c), c);
    } else {
      IpcTheorems.SelfBlocks(u, c);
    }
  }

  // ---------------------------------------------------------------- SENDREC

  /** A process that does not wait is left alone by attempts to get its asynchronous messages. */
  lemma TryOneSpares(s: State, src: nat, c: nat)
    requires s.Sized() && src < s.Size() && c < s.Size() && src != c && !s.procs[src].receiving
    ensures TryOne(s, src, c).0.procs[src] == s.procs[src]
  {
  }

  lemma MiniReceiveSpares(s: State, c: nat, d: nat)
    requires s.Shape() && Queues(s) && c < s.Size() && d < s.Size() && c != d && !s.procs[d].receiving && !s.procs[d].sending
    ensures MiniReceive(s, c, Ep(d)).0.procs[d] == s.procs[d]
  {
    var id := HasPending(s.privs[c].notifyPending, Ep(d), s.Size());
    if s.procs[d].noEndpoint || s.procs[c].sending {
    } else if !s.procs[c].replyPend && id.Some? {
    } else {
      RestSpares(s, c, d);
    }
  }

  lemma RestSpares(s: State, c: nat, d: nat)
    requires s.Shape() && Queues(s) && c < s.Size() && d < s.Size() && c != d && !s.procs[d].receiving && !s.procs[d].sending
    ensures var (u, r) := TryPending(s, c, Ep(d));
      (if r == OK then ClearReply(u, c) else ReceiveQueued(u, c, Ep(d)).0).procs[d] == s.procs[d]
  {
    TryOneSpares(s, d, c);
    OnlyFrom(s.queues[c], d);
    assert d !in s.queues[c];
  }

  /** What a permitted SENDREC leaves once its send half returned OK: `h` is the state between its halves. A
      message for one who waited is in its buffer; then the caller receives from the same process, and no
      notification will do. */
  ghost predicate SendrecOutcome(s: State, c: nat, d: nat, b: Body, h: State, o: (State, Code))
    requires s.Shape() && h.Shape() && c < s.Size() == h.Size() && d < s.Size() && o.0.Sized() && o.0.Size() == s.Size()
  {
    && o.1 == OK
    && (WillReceive(s.procs[d], c) ==> Has(o.0.procs[d], c, b))
    && if h.procs[c].sending then o.0.queues == h.queues && o.0.procs == h.procs[c := h.procs[c].(receiving := true, getFrom := Ep(d))]
       else h.procs[c].replyPend && ReceiveOutcome(h, c, Ep(d), TryPending(h, c, Ep(d)).0, o)
  }

  lemma CallSendrecReceives(s: State, c: nat, d: nat, b: Body)
    requires Core(s) && MayTrap(s, c) && Permitted(s, c, SENDREC, Ep(d))
    requires MiniSend(SetReply(s, c), c, d, Some(b), false).1 == OK
    ensures var h := MiniSend(SetReply(s, c), c, d, Some(b), false).0;
      SendrecOutcome(s, c, d, b, h, DoSyncIpc(s, c, SENDREC, Ep(d), Some(b)))
  {
    var u := SetReply(s, c);
    var h := MiniSend(u, c, d, Some(b), false).0;
    assert Denial(s, c, SENDREC, Ep(d)) == OK;
    IpcAccepts.NotToItself(s, c, SENDREC, Ep(d));
    SetReplyKeeps(s, c);
    MiniSendKeeps(u, c, d, Some(b), false);
    IpcTheorems.SecondHalfSucceeds(s, c, d, Some(b));
    BetweenHalves(u, c, d, b);
    if h.procs[c].sending {
      BlockedOutcome(h, c, d);
    } else {
      ReceiveExact(h, c, Ep(d));
      MiniReceiveSpares(h, c, d);
    }
  }

  /** Between the halves the caller is blocked with its message, or its receiver has it. */
  lemma BetweenHalves(u: State, c: nat, d: nat, b: Body)
    requires Core(u) && c < u.Size() && d < u.Size() && c != d && Idle(u.procs[c]) && u.procs[c].replyPend
    requires MiniSend(u, c, d, Some(b), false).1 == OK
    ensures var h := MiniSend(u, c, d, Some(b), false).0;
      && (h.procs[c].sending <==> !WillReceive(u.procs[d], c))
      && (h.procs[c].sending ==> h.procs[c].sendTo == d)
      && (!h.procs[c].sending ==> Idle(h.procs[c]) && h.procs[c].replyPend && Has(h.procs[d], c, b) && !h.procs[d].sending)
  {
    SendExact(u, c, d, Some(b), false);
  }

  lemma BlockedOutcome(h: State, c: nat, d: nat)
    requires h.Shape() && c < h.Size() && d < h.Size() && h.procs[c].sending && MiniReceive(h, c, Ep(d)).1 == OK
    ensures var t := MiniReceive(h, c, Ep(d)).0;
      t.queues == h.queues && t.procs == h.procs[c := h.procs[c].(receiving := true, getFrom := Ep(d))]
  {
  }
}
