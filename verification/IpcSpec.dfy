/** The IPC entry points of the kernel as functions from state to state. */
module IpcSpec {
  import opened IpcTypes
  import opened WaitGraph
  import opened Lists

  // ---------------------------------------------------------------- predicates of the headers

  /** P_BLOCKEDON as an edge of the wait-for graph; ANY and NONE give no edge. */
  function BlockedOn(p: Proc): int {
    if p.sending then p.sendTo
    else if p.receiving && p.getFrom.Ep? then p.getFrom.e
    else -1
  }

  function Waits(s: State): (g: Graph)
    ensures |g| == s.Size() && forall x :: 0 <= x < |g| ==> g[x] == BlockedOn(s.procs[x])
  {
    seq(|s.procs|, x requires 0 <= x < |s.procs| => BlockedOn(s.procs[x]))
  }

  predicate Accepts(from: Target, src: int) { from == ANY || from == Ep(src) }

  /** WILLRECEIVE */
  predicate WillReceive(p: Proc, src: int) {
    p.receiving && !p.sending && Accepts(p.getFrom, src)
  }

  /** isokendpt */
  predicate OkEndpoint(s: State, e: int) { 0 <= e < s.Size() && !s.procs[e].slotFree }

  // ---------------------------------------------------------------- deadlock and pending bits

  datatype Blocking = BySend | ByReceive

  /** deadlock(): the test on groups of two compares the target's RTS_SENDING with the call. */
  function Deadlock(s: State, how: Blocking, c: nat, to: Target): Walk
    requires s.Sized() && (to.Ep? ==> 0 <= to.e < s.Size())
  {
    if to == ANY then Free
    else Follow(Waits(s), c, s.procs[to.e].sending != how.BySend?, [to.e])
  }

  /** The lowest member of `bits` from `i` up to `n`. */
  function FirstFrom(bits: set<nat>, i: nat, n: nat): (r: Option<nat>)
    ensures r.Some? ==> i <= r.value < n && r.value in bits
    decreases n - i
  {
    if i >= n then None else if i in bits then Some(i) else FirstFrom(bits, i + 1, n)
  }

  /** has_pending */
  function HasPending(bits: set<nat>, from: Target, n: nat): Option<nat> {
    if from.Ep? then (if from.e >= 0 && from.e in bits then Some(from.e) else None)
    else FirstFrom(bits, 0, n)
  }

  // ---------------------------------------------------------------- caller queues

  /** The first queued sender that `from` accepts. */
  function FirstSender(q: seq<nat>, from: Target): (r: Option<nat>)
    ensures r.Some? ==> r.value in q && Accepts(from, r.value)
  {
    if q == [] then None
    else if Accepts(from, q[0]) then Some(q[0])
    else FirstSender(q[1..], from)
  }

  // ---------------------------------------------------------------- sending

  /** Every buffer holds the message that was last put there and not copied out since, if any. */
  ghost predicate Arrivals(s: State) {
    forall i :: 0 <= i < s.Size() ==>
      Box(s.log, i) == if s.procs[i].deliverMsg then Some(s.procs[i].delivered) else None
  }

  lemma ArrivalAppends(log: seq<Event>, e: Event, d: nat)
    ensures Box(log + [e], d) ==
      if e.Arrives() && e.dst == d then Some(e.Mail()) else if e.Copied? && e.dst == d then None else Box(log, d)
  {
    assert (log + [e])[..|log|] == log;
  }

  lemma NoArrival(s: State, e: Event)
    requires !e.Arrives() && !e.Copied?
    ensures Keeps(s, s.Note([e]))
  {
    forall i | 0 <= i < s.Size() { ArrivalAppends(s.log, e, i); }
  }

  /** `q` is like `p` as far as others can see, except that it may have stopped receiving. */
  predicate Calmer(p: Proc, q: Proc) {
    && q.sending == p.sending && (p.sending ==> q.sendTo == p.sendTo && q.sendMsg == p.sendMsg)
    && (q.receiving ==> p.receiving && q.getFrom == p.getFrom)
    && q.slotFree == p.slotFree && q.noEndpoint == p.noEndpoint
  }

  /** The tables keep their size and shape, the caller queues stay as they are, and nobody
      starts to wait. */
  ghost predicate Keeps(s: State, t: State) {
    && t.Size() == s.Size() && t.queues == s.queues
    && (s.Sized() ==> t.Sized()) && (s.Shape() ==> t.Shape())
    && (forall i :: 0 <= i < s.Size() ==> Calmer(s.procs[i], t.procs[i]))
    && (Arrivals(s) ==> Arrivals(t))
  }

  /** No events of synchronous sends have been added. */
  ghost predicate Quiet(was: seq<Event>, now: seq<Event>) {
    && |was| <= |now| && now[..|was|] == was
    && forall k :: |was| <= k < |now| ==> now[k].Notified? || now[k].AsyncPlaced? || now[k].Copied?
  }

  /** Nobody starts to wait, and neither queued messages nor pending notifications are touched. */
  ghost predicate Aside(s: State, t: State) {
    && Keeps(s, t) && Quiet(s.log, t.log)
    && (s.Sized() ==> forall i :: 0 <= i < s.Size() ==> s.privs[i].notifyPending <= t.privs[i].notifyPending)
  }

  lemma AsideTwice(s: State, t: State, u: State)
    requires Aside(s, t) && Aside(t, u)
    ensures Aside(s, u)
  {
    assert u.log[..|s.log|] == t.log[..|s.log|];
  }

  /** Puts the message of `e` in the buffer of its destination, which then no longer waits. */
  function Place(s: State, e: Event): (t: State)
    requires s.Sized() && e.Arrives() && e.dst < s.Size()
    ensures Keeps(s, t)
  {
    var d := e.dst;
    assert forall i :: 0 <= i < s.Size() ==>
        Box(s.log + [e], i) == if i == d then Some(e.Mail()) else Box(s.log, i) by {
      forall i | 0 <= i < s.Size() { ArrivalAppends(s.log, e, i); }
    }
    s.With(d, s.procs[d].(delivered := e.Mail(), deliverMsg := true, receiving := false)).Note([e])
  }

  function ClearReply(s: State, d: nat): (t: State)
    requires s.Sized() && d < s.Size()
    ensures Keeps(s, t)
  {
    s.With(d, s.procs[d].(replyPend := false))
  }

  /** The rendezvous branch of mini_send. */
  function DirectSend(s: State, c: nat, d: nat, body: Body): (t: State)
    requires s.Sized() && c < s.Size() && d < s.Size()
    ensures Keeps(s, t)
  {
    var t := s.Note([Accepted(c, d, body)]);
    NoArrival(s, Accepted(c, d, body));
    ClearReply(Place(t, Placed(c, d, body)), d)
  }

  /** The blocking branch of mini_send. */
  function BlockSend(s: State, c: nat, d: nat, body: Body): (t: State)
    requires s.Sized() && c < s.Size() && d < s.Size()
    ensures Arrivals(s) ==> Arrivals(t)
  {
    var p := s.procs[c].(sending := true, sendTo := d, sendMsg := body);
    NoArrival(s, Accepted(c, d, body));
    s.With(c, p).(queues := s.queues[d := s.queues[d] + [c]]).Note([Accepted(c, d, body)])
  }

  /** mini_send; `msg` is None when the message cannot be copied from the caller. */
  function MiniSend(s: State, c: nat, d: nat, msg: Option<Body>, nonBlocking: bool): (r: (State, Code))
    requires s.Shape() && c < s.Size() && d < s.Size()
    ensures r.0.Shape() && r.0.Size() == s.Size()
    ensures Arrivals(s) ==> Arrivals(r.0)
  {
    if s.procs[d].noEndpoint then (s, EDEADSRCDST)
    else if WillReceive(s.procs[d], c) then
      if msg.None? then (s, EFAULT) else (DirectSend(s, c, d, msg.value), OK)
    else if nonBlocking then (s, ENOTREADY)
    else
      match Deadlock(s, BySend, c, Ep(d))
      case Endless => (s, Hung)
      case Locked(_) => (s, ELOCKED)
      case Free => if msg.None? then (s, EFAULT) else (BlockSend(s, c, d, msg.value), OK)
  }

  /** mini_notify */
  function MiniNotify(s: State, src: nat, dst: int): (r: (State, Code))
    requires s.Sized() && src < s.Size()
    ensures Aside(s, r.0)
  {
    if !OkEndpoint(s, dst) then (s, EDEADSRCDST)
    else if WillReceive(s.procs[dst], src) && !s.procs[dst].replyPend then
      (Place(s, Notified(src, dst)), OK)
    else
      (s.WithPriv(dst, s.privs[dst].(notifyPending := s.privs[dst].notifyPending + {src})), OK)
  }

  // ---------------------------------------------------------------- asynchronous sends

  /** Writes the result of entry `k` back into the table of `src`. */
  function StoreResult(s: State, src: nat, k: nat, r: Code): (t: State)
    requires s.Sized() && src < s.Size() && k < |s.privs[src].table|
    ensures Aside(s, t)
  {
    var p := s.privs[src];
    s.WithPriv(src, p.(table := p.table[k := p.table[k].Store(r)]))
  }

  /** Delivers entry `k` of `src` to `d`. */
  function PlaceAsync(s: State, src: nat, k: nat, d: nat): (t: State)
    requires s.Sized() && src < s.Size() && d < s.Size() && k < |s.privs[src].table|
    ensures Aside(s, t)
  {
    StoreResult(Place(s, AsyncPlaced(src, d, s.privs[src].gen, k, s.privs[src].table[k].body)), src, k, OK)
  }

  function SetAsyn(s: State, d: nat, src: nat): (t: State)
    requires s.Sized() && d < s.Size() && src < s.Size()
    ensures Aside(s, t)
  {
    s.WithPriv(d, s.privs[d].(asynPending := s.privs[d].asynPending + {src}))
  }

  function UnsetAsyn(s: State, d: nat, src: nat): (t: State)
    requires s.Sized() && d < s.Size()
    ensures Aside(s, t)
  {
    s.WithPriv(d, s.privs[d].(asynPending := s.privs[d].asynPending - {src}))
  }

  function Register(s: State, src: nat, on: bool): (t: State)
    requires s.Sized() && src < s.Size()
    ensures Aside(s, t)
  {
    s.WithPriv(src, s.privs[src].(registered := on))
  }

  /** mini_notify from ASYNCM, when `notice` asks for it. */
  function NotifyDone(s: State, src: nat, notice: bool): (t: State)
    requires s.Sized() && src < s.Size()
    ensures Aside(s, t)
  {
    if notice then MiniNotify(s, ASYNCM, src).0 else s
  }

  /** Why an entry that `c` hands in cannot be delivered or left pending, or OK. */
  function Refusal(s: State, c: nat, dst: int): Code
    requires s.Sized() && c < s.Size()
  {
    if !OkEndpoint(s, dst) then EDEADSRCDST
    else if dst < NR_TASKS then ECALLDENIED
    else if dst !in s.privs[c].ipcTo then ECALLDENIED
    else if s.procs[dst].noEndpoint then EDEADSRCDST
    else OK
  }

  /** The state of the loop of try_deliver_senda; `notice` and `open` are its do_notify and
      !done. */
  datatype Scan = Scan(s: State, notice: bool, open: bool)

  /** One round of that loop, for entry `i`. */
  function SendaEntry(a: Scan, c: nat, i: nat): (r: Scan)
    requires a.s.Sized() && c < a.s.Size() && i < |a.s.privs[c].table|
    ensures Aside(a.s, r.s) && |r.s.privs[c].table| == |a.s.privs[c].table|
  {
    var s := a.s;
    var e := s.privs[c].table[i];
    if !e.Unfinished() then a
    else
      var r := Refusal(s, c, e.dst);
      if r != OK then Scan(StoreResult(s, c, i, r), a.notice || e.WantsNotice(r), a.open)
      else if WillReceive(s.procs[e.dst], c) && (!e.noReply || !s.procs[e.dst].replyPend) then
        Scan(PlaceAsync(s, c, i, e.dst), a.notice || e.WantsNotice(OK), a.open)
      else Scan(SetAsyn(s, e.dst, c), a.notice, true)
  }

  /** The loop from entry `i` on. */
  function SendaScan(a: Scan, c: nat, i: nat): (r: Scan)
    requires a.s.Sized() && c < a.s.Size() && i <= |a.s.privs[c].table|
    ensures Aside(a.s, r.s)
    decreases |a.s.privs[c].table| - i
  {
    if i == |a.s.privs[c].table| then a
    else
      var b := SendaEntry(a, c, i);
      var r := SendaScan(b, c, i + 1);
      AsideTwice(a.s, b.s, r.s);
      r
  }

  /** The caller's address space now holds `table`; nothing of it is registered yet. */
  function Submit(s: State, c: nat, table: seq<Entry>): (t: State)
    requires s.Sized() && c < s.Size()
    ensures Aside(s, t)
  {
    var p := s.privs[c];
    s.WithPriv(c, p.(table := table, submitted := table, gen := p.gen + 1, registered := false))
  }

  /** The end of try_deliver_senda. */
  function FinishSenda(a: Scan, c: nat): (t: State)
    requires a.s.Sized() && c < a.s.Size()
    ensures Aside(a.s, t)
  {
    var u := NotifyDone(a.s, c, a.notice);
    if a.open then Register(u, c, true) else u
  }

  /** mini_senda and the size test of do_ipc. */
  function MiniSenda(s: State, c: nat, table: seq<Entry>): (r: (State, Code))
    requires s.Sized() && c < s.Size()
    ensures Aside(s, r.0)
    ensures Arrivals(s) ==> Arrivals(r.0)
  {
    if |table| > 16 * s.Size() then (s, EDOM)
    else if !s.privs[c].sysProc then (s, EPERM)
    else
      var a := Scan(Submit(s, c, table), false, false);
      var b := SendaScan(a, c, 0);
      var t := FinishSenda(b, c);
      AsideTwice(s, a.s, b.s);
      AsideTwice(s, b.s, t);
      (t, OK)
  }

  /** Where the scan of try_one stops: at a malformed entry, or at one for `d` that `d` may
      have now. */
  function StopAt(t: seq<Entry>, d: nat, reply: bool, i: nat): (k: nat)
    requires i <= |t|
    ensures i <= k <= |t|
    ensures k < |t| ==> t[k].Bad() || (t[k].Unfinished() && t[k].dst == d && !(t[k].noReply && reply))
    decreases |t| - i
  {
    if i == |t| then i
    else if t[i].Bad() then i
    else if t[i].Unfinished() && t[i].dst == d && !(t[i].noReply && reply) then i
    else StopAt(t, d, reply, i + 1)
  }

  predicate AllSettled(t: seq<Entry>) {
    forall i :: 0 <= i < |t| ==> t[i].Settled()
  }

  /** The end of try_one when entries may be left. */
  function StillPending(s: State, src: nat, d: nat, notice: bool): (t: State)
    requires s.Sized() && src < s.Size() && d < s.Size()
    ensures Aside(s, t)
  {
    SetAsyn(NotifyDone(s, src, notice), d, src)
  }

  /** try_one */
  function TryOne(s: State, src: nat, d: nat): (r: (State, Code))
    requires s.Sized() && src < s.Size() && d < s.Size()
    ensures Aside(s, r.0)
  {
    var p := s.privs[src];
    if !p.sysProc then (s, EPERM)
    else
      var s1 := UnsetAsyn(s, d, src);
      if !p.registered then (s1, EAGAIN)
      else if d !in p.ipcTo then (s1, ECALLDENIED)
      else
        var k := StopAt(p.table, d, s.procs[d].replyPend, 0);
        if k == |p.table| then
          (if AllSettled(p.table) then Register(s1, src, false) else SetAsyn(s1, d, src), EAGAIN)
        else
          var r := if p.table[k].Bad() then EINVAL else OK;
          var s2 := if r == OK then PlaceAsync(s1, src, k, d) else StoreResult(s1, src, k, r);
          var s3 := StillPending(s2, src, d, p.table[k].WantsNotice(r));
          AsideTwice(s1, s2, s3);
          AsideTwice(s, s1, s3);
          (s3, r)
  }

  /** try_async from privilege structure `i` on. */
  function TryAsync(s: State, c: nat, i: nat): (r: (State, Code))
    requires s.Sized() && c < s.Size()
    ensures Aside(s, r.0)
    decreases s.Size() - i
  {
    if i >= s.Size() then (s, ESRCH)
    else if i !in s.privs[c].asynPending then TryAsync(s, c, i + 1)
    else
      var r := TryOne(s, i, c);
      if r.1 == OK then r
      else
        var u := TryAsync(r.0, c, i + 1);
        AsideTwice(s, r.0, u.0);
        u
  }

  function CancelEntry(e: Entry, d: nat): Entry {
    if e.dst != d || e.Settled() then e else e.Store(if e.Bad() then EINVAL else EDEADSRCDST)
  }

  function CancelTable(t: seq<Entry>, d: nat): (u: seq<Entry>)
    ensures |u| == |t| && forall i :: 0 <= i < |t| ==> u[i] == CancelEntry(t[i], d)
  {
    seq(|t|, i requires 0 <= i < |t| => CancelEntry(t[i], d))
  }

  predicate CancelNotice(t: seq<Entry>, d: nat) {
    exists i :: 0 <= i < |t| && t[i].dst == d && !t[i].Settled() && t[i].WantsNotice(EDEADSRCDST)
  }

  predicate OthersOpen(t: seq<Entry>, d: nat) {
    exists i :: 0 <= i < |t| && t[i].dst != d && !t[i].Settled()
  }

  /** The scan of cancel_async. */
  function StoreCancel(s: State, src: nat, d: nat): (t: State)
    requires s.Sized() && src < s.Size()
    ensures Aside(s, t)
  {
    s.WithPriv(src, s.privs[src].(table := CancelTable(s.privs[src].table, d)))
  }

  /** The scan and what follows it. */
  function FinishCancel(s: State, src: nat, d: nat): (t: State)
    requires s.Sized() && src < s.Size()
    ensures Aside(s, t)
    ensures forall i :: 0 <= i < s.Size() ==> t.privs[i].asynPending == s.privs[i].asynPending
    ensures forall i :: 0 <= i < s.Size() && i != src ==> t.privs[i].registered == s.privs[i].registered
  {
    var v := s.privs[src];
    var s2 := StoreCancel(s, src, d);
    var s3 := NotifyDone(s2, src, CancelNotice(v.table, d));
    var s4 := if OthersOpen(v.table, d) then Register(s3, src, true) else s3;
    AsideTwice(s, s2, s3);
    AsideTwice(s, s3, s4);
    s4
  }

  /** cancel_async */
  function CancelAsync(s: State, src: nat, d: nat): (t: State)
    requires s.Sized() && src < s.Size() && d < s.Size()
    ensures Aside(s, t)
    ensures s.privs[src].sysProc ==> t.privs[d].asynPending == s.privs[d].asynPending - {src}
    ensures forall i :: 0 <= i < s.Size() && t.privs[i].registered ==> s.privs[i].registered
  {
    var p := s.privs[src];
    if !p.sysProc then s
    else
      var s0 := Register(s, src, false);
      var s1 := UnsetAsyn(s0, d, src);
      AsideTwice(s, s0, s1);
      if !p.registered || d !in p.ipcTo then s1
      else
        var t := FinishCancel(s1, src, d);
        AsideTwice(s, s1, t);
        t
  }

  // ---------------------------------------------------------------- receiving

  /** The sender `p` loses RTS_SENDING and its place on the queue of `d`. */
  function Unqueue(s: State, p: nat, d: nat): (t: State)
    requires s.Sized() && p < s.Size() && d < s.Size()
    ensures Arrivals(s) ==> Arrivals(t)
  {
    s.With(p, s.procs[p].(sending := false)).(queues := s.queues[d := Without(s.queues[d], p)])
  }

  /** Takes the message of the queued sender `p`. */
  function TakeQueued(s: State, c: nat, p: nat): (t: State)
    requires s.Sized() && c < s.Size() && p < s.Size()
    ensures t.Size() == s.Size() && t.Sized()
    ensures Arrivals(s) ==> Arrivals(t)
  {
    ClearReply(Place(Unqueue(s, p, c), Placed(p, c, s.procs[p].sendMsg)), c)
  }

  function TakeNotice(s: State, c: nat, id: nat): (t: State)
    requires s.Sized() && c < s.Size()
    ensures Keeps(s, t)
  {
    var t := s.WithPriv(c, s.privs[c].(notifyPending := s.privs[c].notifyPending - {id}));
    ClearReply(Place(t, Notified(id, c)), c)
  }

  function BlockReceive(s: State, c: nat, from: Target): (t: State)
    requires s.Sized() && c < s.Size()
    ensures t.Size() == s.Size() && t.Sized()
    ensures Arrivals(s) ==> Arrivals(t)
  {
    s.With(c, s.procs[c].(getFrom := from, receiving := true))
  }

  /** The end of mini_receive, when nothing acceptable is there. */
  function ReceiveBlocking(s: State, c: nat, from: Target): (r: (State, Code))
    requires s.Sized() && c < s.Size() && (from.Ep? ==> 0 <= from.e < s.Size())
    ensures r.0.Size() == s.Size() && (s.Shape() ==> r.0.Shape())
    ensures Arrivals(s) ==> Arrivals(r.0)
  {
    match Deadlock(s, ByReceive, c, from)
    case Endless => (s, Hung)
    case Locked(_) => (s, ELOCKED)
    case Free => (BlockReceive(s, c, from), OK)
  }

  /** The search of the caller queue and what follows it. */
  function ReceiveQueued(s: State, c: nat, from: Target): (r: (State, Code))
    requires s.Shape() && c < s.Size() && (from.Ep? ==> 0 <= from.e < s.Size())
    ensures r.0.Shape() && r.0.Size() == s.Size()
    ensures Arrivals(s) ==> Arrivals(r.0)
  {
    var p := FirstSender(s.queues[c], from);
    if p.Some? then (TakeQueued(s, c, p.value), OK)
    else ReceiveBlocking(s, c, from)
  }

  /** The asynchronous attempt of mini_receive. */
  function TryPending(s: State, c: nat, from: Target): (r: (State, Code))
    requires s.Sized() && c < s.Size() && (from.Ep? ==> 0 <= from.e < s.Size())
    ensures Aside(s, r.0)
  {
    if HasPending(s.privs[c].asynPending, from, s.Size()).None? then (s, ESRCH)
    else if from.Ep? then TryOne(s, from.e, c)
    else TryAsync(s, c, 0)
  }

  /** mini_receive, as do_sync_ipc calls it (always blocking) */
  function MiniReceive(s: State, c: nat, from: Target): (r: (State, Code))
    requires s.Shape() && c < s.Size() && (from.Ep? ==> 0 <= from.e < s.Size())
    ensures r.0.Shape() && r.0.Size() == s.Size()
    ensures Arrivals(s) ==> Arrivals(r.0)
  {
    if from.Ep? && s.procs[from.e].noEndpoint then (s, EDEADSRCDST)
    else if s.procs[c].sending then ReceiveBlocking(s, c, from)
    else
      var id := HasPending(s.privs[c].notifyPending, from, s.Size());
      if !s.procs[c].replyPend && id.Some? then (TakeNotice(s, c, id.value), OK)
      else
        var (t, r) := TryPending(s, c, from);
        if r == OK then (ClearReply(t, c), OK)
        else ReceiveQueued(t, c, from)
  }

  // ---------------------------------------------------------------- exit

  function StopReceiving(s: State, p: nat): (t: State)
    requires s.Sized() && p < s.Size()
    ensures Keeps(s, t)
  {
    s.With(p, s.procs[p].(receiving := false))
  }

  /** The first half of clear_ipc. */
  function StopSending(s: State, p: nat): (t: State)
    requires s.Shape() && p < s.Size()
    ensures t.Shape() && t.Size() == s.Size()
    ensures Arrivals(s) ==> Arrivals(t)
  {
    var v := s.procs[p];
    if v.sending then
      var e := Cancelled(p, v.sendTo, v.sendMsg);
      NoArrival(Unqueue(s, p, v.sendTo), e);
      Unqueue(s, p, v.sendTo).Note([e])
    else s
  }

  /** clear_ipc */
  function ClearIpc(s: State, p: nat): (t: State)
    requires s.Shape() && p < s.Size()
    ensures t.Shape() && t.Size() == s.Size()
    ensures Arrivals(s) ==> Arrivals(t)
  {
    StopReceiving(StopSending(s, p), p)
  }

  /** One round of the table loop of clear_ipc_refs. */
  function ClearRef(s: State, rc: nat, i: nat, code: Code): (t: State)
    requires s.Shape() && rc < s.Size() && i < s.Size()
    ensures t.Shape() && t.Size() == s.Size()
    ensures Arrivals(s) ==> Arrivals(t)
  {
    if s.procs[i].slotFree then s
    else
      var v := s.privs[i];
      var t := s.WithPriv(i, v.(notifyPending := v.notifyPending - {rc}, asynPending := v.asynPending - {rc}));
      if BlockedOn(t.procs[i]) == rc then ClearIpc(t.With(i, t.procs[i].(retreg := code)), i) else t
  }

  function ClearRefs(s: State, rc: nat, i: nat, code: Code): (t: State)
    requires s.Shape() && rc < s.Size() && i <= s.Size()
    ensures t.Shape() && t.Size() == s.Size()
    ensures Arrivals(s) ==> Arrivals(t)
    decreases s.Size() - i
  {
    if i == s.Size() then s else ClearRefs(ClearRef(s, rc, i, code), rc, i + 1, code)
  }

  /** The first loop of clear_ipc_refs. A pending bit of a process that is no system process
      would never go away. */
  function CancelAll(s: State, rc: nat): (r: (State, Code))
    requires s.Shape() && rc < s.Size()
    ensures Aside(s, r.0)
    ensures r.0.privs[rc].registered ==> s.privs[rc].registered
    decreases |s.privs[rc].asynPending|
  {
    var src := FirstFrom(s.privs[rc].asynPending, 0, s.Size());
    if src.None? then (s, OK)
    else if !s.privs[src.value].sysProc then (s, Hung)
    else
      var t := CancelAsync(s, src.value, rc);
      assert t.privs[rc].asynPending < s.privs[rc].asynPending;
      var u := CancelAll(t, rc);
      AsideTwice(s, t, u.0);
      u
  }

  function ClearIpcRefs(s: State, rc: nat, code: Code): (r: (State, Code))
    requires s.Shape() && rc < s.Size()
    ensures r.0.Shape() && r.0.Size() == s.Size()
    ensures Arrivals(s) ==> Arrivals(r.0)
  {
    var (t, r) := CancelAll(s, rc);
    if r != OK then (t, r) else (ClearRefs(t, rc, 0, code), OK)
  }

  function Retire(s: State, rc: nat): (t: State)
    requires s.Sized() && rc < s.Size()
    ensures t.Sized() && t.Size() == s.Size() && (s.Shape() ==> t.Shape())
    ensures Arrivals(s) ==> Arrivals(t)
  {
    s.With(rc, s.procs[rc].(noEndpoint := true))
  }

  /** clear_endpoint up to its call of clear_ipc. */
  function Kill(s: State, rc: nat): (t: State)
    requires s.Sized() && rc < s.Size()
    ensures s.Shape() ==> t.Shape() && t.Size() == s.Size()
    ensures Arrivals(s) ==> Arrivals(t)
  {
    var t := Retire(s, rc);
    if s.privs[rc].sysProc then Register(t, rc, false) else t
  }

  /** clear_endpoint */
  function ClearEndpoint(s: State, rc: nat): (r: (State, Code))
    requires s.Shape() && rc < s.Size()
    ensures r.0.Shape() && r.0.Size() == s.Size()
    ensures Arrivals(s) ==> Arrivals(r.0)
  {
    ClearIpcRefs(ClearIpc(Kill(s, rc), rc), rc, EDEADSRCDST)
  }

  // ---------------------------------------------------------------- system calls and runs

  /** The checks of do_sync_ipc before the call is carried out. */
  function Denial(s: State, c: nat, call: Call, to: Target): Code
    requires s.Sized() && c < s.Size()
  {
    if to == ANY && call != RECEIVE then EINVAL
    else if to.Ep? && !OkEndpoint(s, to.e) then EDEADSRCDST
    else if to.Ep? && call != RECEIVE && to.e !in s.privs[c].ipcTo then ECALLDENIED
    else if call !in s.privs[c].traps then ETRAPDENIED
    else if call != SENDREC && call != RECEIVE && to.e < NR_TASKS then ETRAPDENIED
    else OK
  }

  function SetReply(s: State, c: nat): (t: State)
    requires s.Sized() && c < s.Size()
    ensures Keeps(s, t)
  {
    s.With(c, s.procs[c].(replyPend := true))
  }

  function SendReceive(s: State, c: nat, d: nat, msg: Option<Body>): (r: (State, Code))
    requires s.Shape() && c < s.Size() && d < s.Size()
    ensures r.0.Shape() && r.0.Size() == s.Size()
    ensures Arrivals(s) ==> Arrivals(r.0)
  {
    var r := MiniSend(SetReply(s, c), c, d, msg, false);
    if r.1 != OK then r else MiniReceive(r.0, c, Ep(d))
  }

  /** do_sync_ipc */
  function DoSyncIpc(s: State, c: nat, call: Call, to: Target, msg: Option<Body>): (r: (State, Code))
    requires s.Shape() && c < s.Size()
    ensures r.0.Shape() && r.0.Size() == s.Size()
    ensures Arrivals(s) ==> Arrivals(r.0)
  {
    var no := Denial(s, c, call, to);
    if no != OK then (s, no)
    else match call
      case SENDREC => SendReceive(s, c, to.e, msg)
      case SEND => MiniSend(s, c, to.e, msg, false)
      case RECEIVE => MiniReceive(ClearReply(s, c), c, to)
      case NOTIFY => MiniNotify(s, c, to.e)
      case SENDNB => MiniSend(s, c, to.e, msg, true)
  }
}
