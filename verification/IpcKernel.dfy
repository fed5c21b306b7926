/** The process table with its linked caller queues, changed in place by the kernel's own loops.
    Every method is proved to do to the table what the function of the same name in IpcSpec does
    to its contents. */
module IpcKernel {
  import opened IpcTypes
  import opened WaitGraph
  import opened IpcSpec
  import opened IpcInv
  import opened IpcCalls
  import opened IpcExit
  import opened Lists
  import opened IpcPending
  import opened IpcRun
  import opened StaleLinks
  import IpcTheorems

  lemma QueueFacts(s: State)
    requires s.Shape() && Queues(s)
    ensures Disjoint(s.queues)
    ensures forall d :: 0 <= d < s.Size() ==> NoDuplicates(s.queues[d])
    ensures forall b, x :: 0 <= b < s.Size() && x in s.queues[b] ==> x < s.Size() && s.procs[x].sending
  {
    forall a, b, x | 0 <= a < |s.queues| && 0 <= b < |s.queues| && x in s.queues[a] && x in s.queues[b] ensures a == b {
      assert s.procs[x].sendTo == a && s.procs[x].sendTo == b;
    }
  }

  /** Linking around element `i` of queue `d` removes it from this queue and leaves the others. */
  lemma CutLinks(heads: seq<int>, link: seq<int>, queues: seq<seq<nat>>, d: nat, i: nat)
    requires |heads| == |queues| && d < |queues| && Disjoint(queues) && NoDuplicates(queues[d]) && i < |queues[d]|
    requires forall b :: 0 <= b < |queues| ==> Linked(heads[b], link, queues[b])
    ensures var x := queues[d][i]; var after := queues[d := Without(queues[d], x)];
      && x < |link| && (i > 0 ==> queues[d][i - 1] < |link| && queues[d][i - 1] in queues[d] && queues[d][i - 1] != x)
      && (forall b :: 0 <= b < |queues| ==>
            if i == 0 then Linked(heads[d := link[x]][b], link, after[b])
            else Linked(heads[b], link[queues[d][i - 1] := link[x]], after[b]))
  {
    var q := queues[d];
    LinkedCut(heads[d], link, q, i);
    WithoutIsCut(q, i);
    if i > 0 {
      var prev := q[i - 1];
      forall b | 0 <= b < |queues| && b != d ensures Linked(heads[b], link[prev := link[q[i]]], queues[b]) {
        assert prev in q;
        LinkedElsewhere(heads[b], link, queues[b], prev, link[q[i]]);
      }
    }
  }

  lemma PendingKeeps(s: State, c: nat, from: Target)
    requires Core(s) && c < s.Size() && (from.Ep? ==> 0 <= from.e < s.Size()) && Idle(s.procs[c])
    ensures var t := IpcSpec.TryPending(s, c, from).0;
      && t.Shape() && Queues(t) && Acyclic(Waits(t))
      && !t.procs[c].sending && (from == Ep(c) ==> !t.procs[c].receiving)
  {
    assert Local(c, s.procs[c], s.privs[c]);
    if from != Ep(c) { TryPendingKeeps(s, c, from); }
  }

  /** mini_receive after the look at notifications. */
  ghost function ReceiveRest(s: State, c: nat, from: Target): (State, Code)
    requires s.Shape() && c < s.Size() && (from.Ep? ==> 0 <= from.e < s.Size())
  {
    var (t, r) := IpcSpec.TryPending(s, c, from);
    if r == OK then (ClearReply(t, c), OK) else IpcSpec.ReceiveQueued(t, c, from)
  }

  /** The kernel fills the buffer before it unlinks the sender. */
  lemma FillThenUnlink(s: State, c: nat, x: nat)
    requires s.Sized() && c < s.Size() && x < s.Size() && x != c
    ensures ClearReply(Unqueue(Place(s, Placed(x, c, s.procs[x].sendMsg)), x, c), c) == TakeQueued(s, c, x)
  {
    var t := ClearReply(Unqueue(Place(s, Placed(x, c, s.procs[x].sendMsg)), x, c), c);
    assert t.procs == TakeQueued(s, c, x).procs;
  }

  /** The cancel loop, on its way from `s`, will end with `end`. */
  ghost predicate Cancelling(s: State, rc: nat, end: (State, Code)) {
    Core(s) && Pending(s) && rc < s.Size() && CancelAll(s, rc) == end
  }

  /** One round of the cancel loop. */
  lemma CancelRound(s: State, src: nat, rc: nat, end: (State, Code))
    requires Cancelling(s, rc, end) && FirstFrom(s.privs[rc].asynPending, 0, s.Size()) == Some(src)
    ensures s.privs[src].sysProc
    ensures Cancelling(CancelAsync(s, src, rc), rc, end)
  {
    assert MaySenda(s, src, rc);
    CancelAsyncKeeps(s, src, rc);
    CancelAsyncPending(s, src, rc);
  }

  /** Every round clears a bit. */
  lemma CancelShrinks(s: State, src: nat, rc: nat)
    requires s.Shape() && src < s.Size() && rc < s.Size() && src in s.privs[rc].asynPending && s.privs[src].sysProc
    ensures |CancelAsync(s, src, rc).privs[rc].asynPending| < |s.privs[rc].asynPending|
  {
    assert s.privs[rc].asynPending == CancelAsync(s, src, rc).privs[rc].asynPending + {src};
  }

  /** Flags that do not make anybody wait have no bearing on whether a send blocks. */
  lemma SameBlocks(s: State, t: State, c: nat, d: nat, msg: Option<Body>)
    requires s.Sized() && t.Sized() && t.Size() == s.Size() && d < s.Size() && Waits(t) == Waits(s)
    requires t.procs[d].noEndpoint == s.procs[d].noEndpoint && WillReceive(t.procs[d], c) == WillReceive(s.procs[d], c)
    ensures BlocksSend(t, c, d, msg) <==> BlocksSend(s, c, d, msg)
  {
  }

  lemma FirstHalfKeeps(s: State, c: nat, d: nat, msg: Option<Body>)
    requires Core(s) && c < s.Size() && d < s.Size() && c != d && Idle(s.procs[c])
    ensures var t := SetReply(s, c);
      var r := IpcSpec.MiniSend(t, c, d, msg, false);
      && Core(t) && Core(r.0) && (r.1 == OK ==> MayReceive(r.0.procs[c], c, Ep(d)))
      && (BlocksSend(t, c, d, msg) <==> BlocksSend(s, c, d, msg))
  {
    assert Waits(SetReply(s, c)) == Waits(s);
    SameBlocks(s, SetReply(s, c), c, d, msg);
    SetReplyKeeps(s, c);
    MiniSendKeeps(SetReply(s, c), c, d, msg, false);
    if IpcSpec.MiniSend(SetReply(s, c), c, d, msg, false).1 == OK { SecondHalf(s, c, d, msg); }
  }

  lemma CancelIdle(s: State, rc: nat)
    requires s.Shape() && FreeIdle(s) && rc < s.Size()
    ensures FreeIdle(CancelAll(s, rc).0)
  {
    forall p | 0 <= p < s.Size() ensures Calmer(s.procs[p], CancelAll(s, rc).0.procs[p]) {}
  }

  /** What clear_ipc leaves to clear_ipc_refs. */
  lemma LeavingQueue(s: State, rc: nat)
    requires Core(s) && FreeIdle(s) && rc < s.Size()
    ensures var t := IpcSpec.ClearIpc(Kill(s, rc), rc); FreeIdle(t) && t.queues[rc] == s.queues[rc]
  {
    assert Local(rc, s.procs[rc], s.privs[rc]);
    LeavingIdle(s, rc);
  }

  lemma LeavingIdle(s: State, rc: nat)
    requires s.Shape() && FreeIdle(s) && rc < s.Size()
    ensures FreeIdle(IpcSpec.ClearIpc(Kill(s, rc), rc))
  {
  }

  lemma LeavingKeeps(s: State, rc: nat)
    requires Core(s) && Pending(s) && rc < s.Size()
    ensures var t := IpcSpec.ClearIpc(Kill(s, rc), rc); Core(t) && Pending(t)
  {
    KillKeeps(s, rc);
    ClearIpcKeeps(Kill(s, rc), rc);
    KillPending(s, rc);
  }

  /** The table loop of clear_ipc_refs, arrived at slot `i`, will end with `end`. */
  ghost predicate Leading(s: State, rc: nat, i: nat, code: Code, end: State) {
    Core(s) && FreeIdle(s) && rc < s.Size() && i <= s.Size() && ClearRefs(s, rc, i, code) == end
  }

  lemma OneRound(s: State, rc: nat, i: nat, code: Code, end: State)
    requires Leading(s, rc, i, code, end) && i < s.Size()
    ensures Leading(ClearRef(s, rc, i, code), rc, i + 1, code, end)
  {
    ClearRefKeeps(s, rc, i, code);
    ClearRefExact(s, rc, i, code);
    OneClearedIdle(s, ClearRef(s, rc, i, code), rc, i, code);
  }

  /** What one round does to the queue of `rc`, of which the slots from `i` on are left. */
  lemma RoundQueue(s: State, rc: nat, i: nat, code: Code, q0: seq<nat>)
    requires Core(s) && FreeIdle(s) && rc < s.Size() && i < s.Size() && NoDuplicates(q0) && s.queues[rc] == From(q0, i)
    ensures ClearRef(s, rc, i, code).queues[rc] == From(q0, i + 1)
    ensures Exposed(q0, i + 1) == Exposed(q0, i) + if i in s.queues[rc] && !LastIs(s.queues[rc], i) then {i} else {}
  {
    FromNext(q0, i);
    ExposedNext(q0, i);
    if i in s.queues[rc] {
      LastOnTurn(q0, i);
    } else {
      WithoutAbsent(s.queues[rc], i);
      if HigherBehind(q0, i) { HigherIsMember(q0, i); }
    }
  }

  /** try_async, arrived at privilege structure `i`, will end with `end`. */
  ghost predicate Trying(s: State, c: nat, i: nat, end: (State, Code)) {
    s.Sized() && AllLocal(s) && c < s.Size() && Idle(s.procs[c]) && IpcSpec.TryAsync(s, c, i) == end
  }

  lemma OneTry(s: State, c: nat, i: nat, end: (State, Code))
    requires Trying(s, c, i, end) && i < s.Size() && i in s.privs[c].asynPending
    ensures i != c && !s.procs[c].deliverMsg
    ensures var r := IpcSpec.TryOne(s, i, c); if r.1 == OK then r == end else Trying(r.0, c, i + 1, end)
  {
    assert Local(c, s.procs[c], s.privs[c]);
    TryOneLocal(s, i, c);
    TryOneFrame(s, i, c);
  }

  predicate IsLast(queues: seq<seq<nat>>, d: nat, p: nat) { d < |queues| && LastIs(queues[d], p) }

  /** A send of `c` to `d` blocks: `d` can be reached and does not wait for it, nor does it lead back to
      `c`, and the message can be copied. */
  ghost predicate BlocksSend(s: State, c: nat, d: nat, msg: Option<Body>)
    requires s.Sized() && d < s.Size()
  {
    !s.procs[d].noEndpoint && !WillReceive(s.procs[d], c) && !Reaches(Waits(s), d, c) && msg.Some?
  }

  /** The process on whose behalf the kernel is entered. */
  function Caller(step: Step): int {
    match step
    case Trap(c, _, _, _) => c
    case OutOfQuantum(p, _, _) => p
    case _ => NULL
  }

  /** The step blocks its caller in a send. */
  ghost predicate Blocks(s: State, step: Step)
    requires s.Sized() && Possible(s, step)
  {
    match step
    case Trap(c, call, to, msg) =>
      (call == SEND || call == SENDREC) && Denial(s, c, call, to) == OK && BlocksSend(s, c, to.e, msg)
    case OutOfQuantum(p, d, body) => BlocksSend(s, p, d, Some(body))
    case _ => false
  }

  ghost function LeftBySelf(s: State, p: nat): set<nat>
    requires s.Sized() && p < s.Size()
  {
    if s.procs[p].sending && !IsLast(s.queues, s.procs[p].sendTo, p) then {p} else {}
  }

  /** The slots whose links the exit of `rc` leaves stale: `rc` itself, unless it was last on its queue,
      and everybody on its queue with a higher slot behind. */
  ghost function LeftStale(s: State, rc: nat): set<nat>
    requires s.Sized() && rc < s.Size()
  {
    LeftBySelf(s, rc) + Exposed(s.queues[rc], s.Size())
  }

  class Kernel {
    const proc: array<Proc>
    const priv: array<Priv>
    const callerQ: array<int>          // p_caller_q of every slot, a slot or NULL
    const qLink: array<int>            // p_q_link of every slot
    ghost var queues: seq<seq<nat>>
    ghost var log: seq<Event>

    /** A table in which nobody waits. */
    constructor (procs: seq<Proc>, privs: seq<Priv>)
      requires |procs| == |privs| >= NR_TASKS
      ensures Valid() && Abs() == State(procs, privs, seq(|procs|, _ => []), [])
      ensures fresh(proc) && fresh(priv) && fresh(callerQ) && fresh(qLink)
      ensures Stale() == {}
    {
      proc := new Proc[|procs|](i requires 0 <= i < |procs| => procs[i]);
      priv := new Priv[|privs|](i requires 0 <= i < |privs| => privs[i]);
      callerQ := new int[|procs|](_ => NULL);
      qLink := new int[|procs|](_ => NULL);
      queues := seq(|procs|, _ => []);
      log := [];
      new;
      assert proc[..] == procs && priv[..] == privs;
      forall d | 0 <= d < |queues| ensures LinkedAt(d) {}
    }

    ghost predicate LinkedAt(d: nat)
      requires d < callerQ.Length && d < |queues|
      reads this`queues, callerQ, qLink
    {
      Linked(callerQ[d], qLink[..], queues[d])
    }

    ghost predicate Valid()
      reads this`queues, proc, priv, callerQ, qLink
    {
      && proc.Length == priv.Length == callerQ.Length == qLink.Length == |queues| >= NR_TASKS
      && callerQ != qLink
      && forall d :: 0 <= d < |queues| ==> LinkedAt(d)
    }

    /** The slots on no queue whose link is not clear. */
    ghost function Stale(): set<nat>
      reads this`queues, qLink
    {
      StaleSet(queues, qLink[..])
    }

    ghost function Abs(): State
      reads this, proc, priv
    {
      State(proc[..], priv[..], queues, log)
    }

    // ---------------------------------------------------------------- the table

    method PutProc(i: nat, p: Proc)
      requires i < proc.Length
      modifies proc
      ensures proc[..] == old(proc[..])[i := p]
    {
      proc[i] := p;
    }

    method PutPriv(i: nat, v: Priv)
      requires i < priv.Length
      modifies priv
      ensures priv[..] == old(priv[..])[i := v]
    {
      priv[i] := v;
    }

    // ---------------------------------------------------------------- the queues

    /** The walk of mini_send to the end of the queue of `d`. */
    method FindLast(d: nat) returns (prev: int)
      requires Valid() && d < proc.Length
      ensures prev == if queues[d] == [] then NULL else queues[d][|queues[d]| - 1]
    {
      ghost var q := queues[d];
      ghost var i := 0;
      prev := NULL;
      var x := callerQ[d];
      assert LinkedAt(d);
      while x != NULL
        invariant 0 <= i <= |q| && x == (if i < |q| then q[i] else NULL)
        invariant prev == if i == 0 then NULL else q[i - 1]
        decreases |q| - i
      {
        prev, x := x, qLink[x];
        i := i + 1;
      }
    }

    /** Puts `c` at the end of the queue of `d`. */
    method AppendCaller(d: nat, c: nat)
      requires Valid() && d < proc.Length && c < proc.Length
      requires Disjoint(queues) && NoDuplicates(queues[d]) && qLink[c] == NULL
      requires forall b :: 0 <= b < |queues| ==> c !in queues[b]
      modifies callerQ, qLink, this`queues
      ensures Valid() && queues == old(queues)[d := old(queues)[d] + [c]]
      ensures Stale() == old(Stale())
    {
      ghost var q := queues[d];
      var prev := FindLast(d);
      assert LinkedAt(d);
      ghost var link := qLink[..];
      LinkedAppend(callerQ[d], link, q, c);
      StaleAppend(queues, link, d, c, prev);
      forall b | 0 <= b < |queues| ensures Linked(callerQ[b], link, queues[b]) { assert LinkedAt(b); }
      if prev == NULL {
        callerQ[d] := c;
        assert qLink[..] == link;
      } else {
        forall b | 0 <= b < |queues| && b != d ensures Linked(callerQ[b], link[prev := c], queues[b]) {
          LinkedElsewhere(callerQ[b], link, queues[b], prev, c);
        }
        qLink[prev] := c;
        assert qLink[..] == link[prev := c];
      }
      queues := queues[d := q + [c]];
      forall b | 0 <= b < |queues| ensures LinkedAt(b) {}
    }

    /** Links around `x`, element `i` of the queue of `d`, which `prev` precedes if anything. */
    method TakeOut(d: nat, prev: int, x: nat, ghost i: nat)
      requires Valid() && d < proc.Length && x < proc.Length && Disjoint(queues) && NoDuplicates(queues[d])
      requires i < |queues[d]| && queues[d][i] == x && prev == if i == 0 then NULL else queues[d][i - 1]
      modifies callerQ, qLink, this`queues
      ensures Valid() && queues == old(queues)[d := Without(old(queues)[d], x)]
      ensures qLink[x] == old(qLink[x]) && Stale() == old(Stale()) + if qLink[x] != NULL then {x} else {}
    {
      ghost var heads, link, were := callerQ[..], qLink[..], queues;
      forall b | 0 <= b < |queues| ensures Linked(heads[b], link, queues[b]) { assert LinkedAt(b); }
      CutLinks(heads, link, queues, d, i);
      StaleCut(queues, link, d, x, prev, link[x]);
      if prev == NULL {
        callerQ[d] := qLink[x];
        assert callerQ[..] == heads[d := link[x]] && qLink[..] == link;
      } else {
        qLink[prev] := qLink[x];
        assert callerQ[..] == heads && qLink[..] == link[prev := link[x]];
      }
      queues := queues[d := Without(queues[d], x)];
      forall b | 0 <= b < |queues| ensures LinkedAt(b) {}
    }

    /** Resets the link of a slot that is on no queue. */
    method ResetLink(x: nat)
      requires Valid() && x < proc.Length && forall b :: 0 <= b < |queues| ==> x !in queues[b]
      modifies qLink
      ensures Valid() && Stale() == old(Stale()) - {x}
    {
      ghost var link := qLink[..];
      StaleReset(queues, link, x);
      forall b | 0 <= b < |queues| ensures Linked(callerQ[b], link[x := NULL], queues[b]) {
        assert LinkedAt(b);
        LinkedElsewhere(callerQ[b], link, queues[b], x, NULL);
      }
      qLink[x] := NULL;
      assert qLink[..] == link[x := NULL];
      forall b | 0 <= b < |queues| ensures LinkedAt(b) {}
    }

    // ---------------------------------------------------------------- sending

    /** deadlock(): returns the size of the group, or zero. */
    method Deadlock(how: Blocking, c: nat, to: Target) returns (group: nat)
      requires Valid() && Acyclic(Waits(Abs())) && c < proc.Length
      requires (to.Ep? ==> 0 <= to.e < proc.Length) && (to == Ep(c) ==> BlockedOn(proc[c]) < 0)
      ensures IpcSpec.Deadlock(Abs(), how, c, to) == if group == 0 then Free else Locked(group)
    {
      if to == ANY { return 0; }
      ghost var g := Waits(Abs());
      ghost var exempt := proc[to.e].sending != how.BySend?;
      ghost var path := [to.e];
      var xp := to.e;
      group := 1;
      while true
        invariant IsPath(g, path) && path[|path| - 1] == xp && path[0] == to.e
        invariant if to == Ep(c) then path == [c] else c !in path
        invariant group == |path|
        invariant IpcSpec.Deadlock(Abs(), how, c, to) == Follow(g, c, exempt, path)
        decreases |g| - |path|
      {
        if to != Ep(c) { RoomForCaller(g, path, c); }
        assert group < proc.Length;      // the array of processes has room for xp
        group := group + 1;
        var e := BlockedOn(proc[xp]);
        if e < 0 || e >= proc.Length { return 0; }
        ghost var longer := path + [e];
        assert IsPath(g, longer) by {
          forall k | 0 <= k < |longer| - 1 ensures g[longer[k]] == longer[k + 1] {}
        }
        PathBounded(g, longer);
        if e == c {
          if group == 2 && proc[xp].sending != how.BySend? { return 0; }
          return;
        }
        xp := e;
        path := longer;
      }
    }

    /** The rendezvous branch of mini_send. */
    method DirectSend(c: nat, d: nat, body: Body)
      requires Valid() && c < proc.Length && d < proc.Length
      modifies proc, this`log
      ensures Valid() && Abs() == IpcSpec.DirectSend(old(Abs()), c, d, body)
    {
      log := log + [Accepted(c, d, body)];
      FillBuffer(Placed(c, d, body));
      ReplyArrived(d);
    }

    /** The blocking branch of mini_send. It stops at the assertion that the link of the caller is
        clear if the caller still has one from an earlier queue. */
    method BlockSend(c: nat, d: nat, body: Body) returns (panic: bool)
      requires Valid() && Abs().Shape() && Queues(Abs()) && c < proc.Length && d < proc.Length && !proc[c].sending
      modifies proc, callerQ, qLink, this`queues, this`log
      ensures panic <==> old(qLink[c]) != NULL
      ensures !panic ==> Valid() && Abs() == IpcSpec.BlockSend(old(Abs()), c, d, body) && Stale() == old(Stale())
    {
      QueueFacts(Abs());
      PutProc(c, proc[c].(sending := true, sendTo := d, sendMsg := body));
      if qLink[c] != NULL { return true; }
      AppendCaller(d, c);
      log := log + [Accepted(c, d, body)];
      return false;
    }

    /** mini_send. The kernel stops exactly if the call blocks a caller with a stale link. */
    method MiniSend(c: nat, d: nat, msg: Option<Body>, nonBlocking: bool) returns (r: Code, panic: bool)
      requires Valid() && Core(Abs()) && c < proc.Length && d < proc.Length && c != d && Idle(proc[c])
      modifies proc, callerQ, qLink, this`queues, this`log
      ensures panic <==> !nonBlocking && BlocksSend(old(Abs()), c, d, msg) && old(qLink[c]) != NULL
      ensures !panic ==> Valid() && (Abs(), r) == IpcSpec.MiniSend(old(Abs()), c, d, msg, nonBlocking) && Stale() == old(Stale())
    {
      panic := false;
      if proc[d].noEndpoint { return EDEADSRCDST, false; }
      if WillReceive(proc[d], c) {
        assert Local(d, Abs().procs[d], Abs().privs[d]);
        assert !proc[d].deliverMsg;
        if msg.None? { return EFAULT, false; }
        DirectSend(c, d, msg.value);
        return OK, false;
      }
      if nonBlocking { return ENOTREADY, false; }
      r, panic := SendBlocking(c, d, msg);
    }

    /** The end of mini_send, when the destination does not wait for the message. */
    method SendBlocking(c: nat, d: nat, msg: Option<Body>) returns (r: Code, panic: bool)
      requires Valid() && Core(Abs()) && c < proc.Length && d < proc.Length && c != d && Idle(proc[c])
      requires !WillReceive(proc[d], c) && !proc[d].noEndpoint
      modifies proc, callerQ, qLink, this`queues, this`log
      ensures panic <==> BlocksSend(old(Abs()), c, d, msg) && old(qLink[c]) != NULL
      ensures !panic ==> Valid() && (Abs(), r) == IpcSpec.MiniSend(old(Abs()), c, d, msg, false) && Stale() == old(Stale())
    {
      SendDeadlockExact(Abs(), c, d);
      var group := Deadlock(BySend, c, Ep(d));
      if group != 0 { return ELOCKED, false; }
      if msg.None? { return EFAULT, false; }
      panic := BlockSend(c, d, msg.value);
      r := OK;
    }

    // ---------------------------------------------------------------- notifications and asynchronous sends

    /** mini_notify */
    method MiniNotify(src: nat, dst: int) returns (r: Code)
      requires Valid() && AllLocal(Abs()) && src < proc.Length
      modifies proc, priv, this`log
      ensures Valid() && (Abs(), r) == IpcSpec.MiniNotify(old(Abs()), src, dst)
    {
      if !(0 <= dst < proc.Length && !proc[dst].slotFree) { return EDEADSRCDST; }
      if WillReceive(proc[dst], src) && !proc[dst].replyPend {
        assert Local(dst, Abs().procs[dst], Abs().privs[dst]);
        assert !proc[dst].deliverMsg;
        FillBuffer(Notified(src, dst));
        return OK;
      }
      PutPriv(dst, priv[dst].(notifyPending := priv[dst].notifyPending + {src}));
      return OK;
    }

    /** The search of mini_receive for a queued sender, from the head of the queue of `c`. */
    method FindSender(c: nat, from: Target) returns (prev: int, x: int, ghost i: nat)
      requires Valid() && Abs().Shape() && c < proc.Length
      ensures var p := FirstSender(queues[c], from); x == if p.Some? then p.value else NULL
      ensures x != NULL ==> i < |queues[c]| && queues[c][i] == x && prev == if i == 0 then NULL else queues[c][i - 1]
    {
      ghost var q := queues[c];
      i := 0;
      prev, x := NULL, callerQ[c];
      assert LinkedAt(c);
      while x != NULL && !Accepts(from, x)
        invariant 0 <= i <= |q| && x == (if i < |q| then q[i] else NULL)
        invariant prev == if i == 0 then NULL else q[i - 1]
        invariant FirstSender(q, from) == FirstSender(q[i..], from)
        decreases |q| - i
      {
        prev, x := x, qLink[x];
        i := i + 1;
      }
    }

    /** The sender `x` stops sending and leaves the queue of `c`. */
    method Release(c: nat, prev: int, x: nat, ghost i: nat)
      requires Valid() && c < proc.Length && x < proc.Length && Disjoint(queues) && NoDuplicates(queues[c])
      requires i < |queues[c]| && queues[c][i] == x && prev == if i == 0 then NULL else queues[c][i - 1]
      modifies proc, callerQ, qLink, this`queues
      ensures Valid() && Abs() == IpcSpec.Unqueue(old(Abs()), x, c) && Stale() == old(Stale())
    {
      assert x !in Stale() by { assert x in queues[c]; }
      WithoutMembers(queues[c], x);
      PutProc(x, proc[x].(sending := false));
      TakeOut(c, prev, x, i);
      ResetLink(x);
    }

    /** Receiving from the queued sender `x`. */
    method TakeQueued(c: nat, prev: int, x: nat, ghost i: nat)
      requires Valid() && Abs().Shape() && Queues(Abs()) && c < proc.Length && x < proc.Length && !proc[c].sending
      requires i < |queues[c]| && queues[c][i] == x && prev == if i == 0 then NULL else queues[c][i - 1]
      modifies proc, callerQ, qLink, this`queues, this`log
      ensures Valid() && Abs() == IpcSpec.TakeQueued(old(Abs()), c, x) && Stale() == old(Stale())
    {
      QueueFacts(Abs());
      FillThenUnlink(Abs(), c, x);
      FillBuffer(Placed(x, c, proc[x].sendMsg));
      Release(c, prev, x, i);
      ReplyArrived(c);
    }

    /** Puts a message in a buffer; the destination no longer waits. */
    method FillBuffer(e: Event)
      requires Valid() && e.Arrives() && e.dst < proc.Length
      modifies proc, this`log
      ensures Valid() && Abs() == Place(old(Abs()), e)
    {
      var d := e.dst;
      PutProc(d, proc[d].(delivered := e.Mail(), deliverMsg := true, receiving := false));
      log := log + [e];
    }

    method ReplyArrived(c: nat)
      requires Valid() && c < proc.Length
      modifies proc
      ensures Valid() && Abs() == ClearReply(old(Abs()), c)
    {
      if proc[c].replyPend { PutProc(c, proc[c].(replyPend := false)); }
    }

    method PutBit(d: nat, src: nat, on: bool)
      requires Valid() && d < proc.Length && src < proc.Length
      modifies priv
      ensures Valid() && Abs() == if on then SetAsyn(old(Abs()), d, src) else UnsetAsyn(old(Abs()), d, src)
    {
      var bits := if on then priv[d].asynPending + {src} else priv[d].asynPending - {src};
      PutPriv(d, priv[d].(asynPending := bits));
    }

    method PutRegistered(src: nat, on: bool)
      requires Valid() && src < proc.Length
      modifies priv
      ensures Valid() && Abs() == Register(old(Abs()), src, on)
    {
      PutPriv(src, priv[src].(registered := on));
    }

    method PutResult(src: nat, k: nat, r: Code)
      requires Valid() && src < proc.Length && k < |priv[src].table|
      modifies priv
      ensures Valid() && Abs() == StoreResult(old(Abs()), src, k, r)
    {
      var p := priv[src];
      PutPriv(src, p.(table := p.table[k := p.table[k].Store(r)]));
    }

    method DeliverEntry(src: nat, k: nat, d: nat)
      requires Valid() && src < proc.Length && d < proc.Length && k < |priv[src].table|
      modifies proc, priv, this`log
      ensures Valid() && Abs() == PlaceAsync(old(Abs()), src, k, d)
    {
      FillBuffer(AsyncPlaced(src, d, priv[src].gen, k, priv[src].table[k].body));
      PutResult(src, k, OK);
    }

    method ReportDone(src: nat, notice: bool)
      requires Valid() && AllLocal(Abs()) && src < proc.Length
      modifies proc, priv, this`log
      ensures Valid() && Abs() == NotifyDone(old(Abs()), src, notice)
    {
      if notice { var r := MiniNotify(ASYNCM, src); }
    }

    /** The scan of try_one: the entry it stops at, and whether everything before is settled. */
    method ScanTable(src: nat, d: nat) returns (k: nat, done: bool)
      requires Valid() && src < proc.Length && d < proc.Length
      ensures k == StopAt(priv[src].table, d, proc[d].replyPend, 0)
      ensures k == |priv[src].table| ==> done == AllSettled(priv[src].table)
    {
      var t := priv[src].table;
      k := 0;
      done := true;
      while k < |t|
        invariant 0 <= k <= |t|
        invariant StopAt(t, d, proc[d].replyPend, 0) == StopAt(t, d, proc[d].replyPend, k)
        invariant done == forall j :: 0 <= j < k ==> t[j].Settled()
      {
        var e := t[k];
        if e.Bad() { return; }
        if !e.Empty() && !e.done {
          done := false;
          if e.dst == d && !(e.noReply && proc[d].replyPend) { return; }
        }
        k := k + 1;
      }
    }

    /** The entry at which the scan of try_one stops is refused or delivered. */
    method Handle(src: nat, k: nat, d: nat) returns (r: Code)
      requires Valid() && AllLocal(Abs()) && src < proc.Length && d < proc.Length && !proc[d].sending && k < |priv[src].table|
      modifies proc, priv, this`log
      ensures Valid() && AllLocal(Abs()) && r == (if old(priv[src]).table[k].Bad() then EINVAL else OK)
      ensures Abs() == if r == OK then PlaceAsync(old(Abs()), src, k, d) else StoreResult(old(Abs()), src, k, r)
    {
      if priv[src].table[k].Bad() {
        StoreLocal(Abs(), src, k, EINVAL);
        PutResult(src, k, EINVAL);
        return EINVAL;
      }
      PlaceAsyncLocal(Abs(), src, k, d);
      DeliverEntry(src, k, d);
      return OK;
    }

    /** try_one */
    method TryOne(src: nat, d: nat) returns (r: Code)
      requires Valid() && AllLocal(Abs()) && src < proc.Length && d < proc.Length && src != d && !proc[d].sending
      modifies proc, priv, this`log
      ensures Valid() && (Abs(), r) == IpcSpec.TryOne(old(Abs()), src, d)
    {
      if !priv[src].sysProc { return EPERM; }
      UnsetAsynLocal(Abs(), d, src);
      PutBit(d, src, false);
      if !priv[src].registered { return EAGAIN; }
      if d !in priv[src].ipcTo { return ECALLDENIED; }
      var k, done := ScanTable(src, d);
      var notice := false;
      r := EAGAIN;
      if k < |priv[src].table| {
        var e := priv[src].table[k];
        done := false;
        r := Handle(src, k, d);
        notice := e.WantsNotice(r);
      }
      ReportDone(src, notice);
      if done { PutRegistered(src, false); } else { PutBit(d, src, true); }
    }

    /** One round of try_async. */
    method TryNext(c: nat, i: nat, ghost end: (State, Code)) returns (r: Code)
      requires Valid() && Trying(Abs(), c, i, end) && i < proc.Length
      modifies proc, priv, this`log
      ensures Valid() && if r == OK then (Abs(), r) == end else Trying(Abs(), c, i + 1, end)
    {
      if i !in priv[c].asynPending { return ESRCH; }
      OneTry(Abs(), c, i, end);
      assert !proc[c].deliverMsg;
      r := TryOne(i, c);
    }

    /** try_async */
    method TryAsync(c: nat) returns (r: Code)
      requires Valid() && AllLocal(Abs()) && c < proc.Length && Idle(proc[c])
      modifies proc, priv, this`log
      ensures Valid() && (Abs(), r) == IpcSpec.TryAsync(old(Abs()), c, 0)
    {
      ghost var end := IpcSpec.TryAsync(Abs(), c, 0);
      var i := 0;
      while i < proc.Length
        invariant 0 <= i <= proc.Length && Valid() && Trying(Abs(), c, i, end)
      {
        r := TryNext(c, i, end);
        if r == OK { return; }
        i := i + 1;
      }
      return ESRCH;
    }

    /** The loop of try_deliver_senda. */
    method ScanEntries(c: nat) returns (notice: bool, open: bool)
      requires Valid() && AllLocal(Abs()) && c < proc.Length
      modifies proc, priv, this`log
      ensures Valid() && AllLocal(Abs())
      ensures Scan(Abs(), notice, open) == SendaScan(Scan(old(Abs()), false, false), c, 0)
    {
      notice, open := false, false;
      var i := 0;
      while i < |priv[c].table|
        invariant 0 <= i <= |priv[c].table| == |old(priv[c]).table| && Valid() && queues == old(queues)
        invariant AllLocal(Abs())
        invariant SendaScan(Scan(Abs(), notice, open), c, i) == SendaScan(Scan(old(Abs()), false, false), c, 0)
        decreases |old(priv[c]).table| - i
      {
        SendaEntryLocal(Scan(Abs(), notice, open), c, i);
        notice, open := DeliverOrPend(c, i, notice, open);
        i := i + 1;
      }
    }

    method SubmitTable(c: nat, table: seq<Entry>)
      requires Valid() && AllLocal(Abs()) && c < proc.Length
      modifies priv
      ensures Valid() && Abs() == Submit(old(Abs()), c, table) && AllLocal(Abs())
    {
      LocalAt(Abs(), Submit(Abs(), c, table), c);
      PutPriv(c, priv[c].(table := table, submitted := table, gen := priv[c].gen + 1, registered := false));
    }

    /** The end of try_deliver_senda. */
    method FinishSenda(c: nat, notice: bool, open: bool)
      requires Valid() && AllLocal(Abs()) && c < proc.Length
      modifies proc, priv, this`log
      ensures Valid() && Abs() == IpcSpec.FinishSenda(Scan(old(Abs()), notice, open), c)
    {
      ReportDone(c, notice);
      if open { PutRegistered(c, true); }
    }

    /** mini_senda and try_deliver_senda; the table lies in the caller's memory. */
    method MiniSenda(c: nat, table: seq<Entry>) returns (r: Code)
      requires Valid() && AllLocal(Abs()) && c < proc.Length
      modifies proc, priv, this`log
      ensures Valid() && (Abs(), r) == IpcSpec.MiniSenda(old(Abs()), c, table)
    {
      if |table| > 16 * proc.Length { return EDOM; }
      if !priv[c].sysProc { return EPERM; }
      SubmitTable(c, table);
      var notice, open := ScanEntries(c);
      FinishSenda(c, notice, open);
      return OK;
    }

    /** One round of the loop of try_deliver_senda. */
    method DeliverOrPend(c: nat, i: nat, notice: bool, open: bool) returns (notice': bool, open': bool)
      requires Valid() && AllLocal(Abs()) && c < proc.Length && i < |priv[c].table|
      modifies proc, priv, this`log
      ensures Valid() && Scan(Abs(), notice', open') == SendaEntry(Scan(old(Abs()), notice, open), c, i)
    {
      var e := priv[c].table[i];
      notice', open' := notice, open;
      if !e.Unfinished() { return; }
      var r := OK;
      if !(0 <= e.dst < proc.Length && !proc[e.dst].slotFree) { r := EDEADSRCDST; }
      else if e.dst < NR_TASKS { r := ECALLDENIED; }
      else if e.dst !in priv[c].ipcTo { r := ECALLDENIED; }
      else if proc[e.dst].noEndpoint { r := EDEADSRCDST; }
      if r == OK && WillReceive(proc[e.dst], c) && (!e.noReply || !proc[e.dst].replyPend) {
        DeliverEntry(c, i, e.dst);
      } else if r == OK {
        PutBit(e.dst, c, true);
        open' := true;
        return;
      } else {
        PutResult(c, i, r);
      }
      notice' := notice || e.WantsNotice(r);
    }

    /** The scan of cancel_async: the finished table, and whether there is anything to report or
        left to do. */
    method FinishEntries(t: seq<Entry>, d: nat) returns (u: seq<Entry>, notice: bool, open: bool)
      ensures u == CancelTable(t, d) && notice == CancelNotice(t, d) && open == OthersOpen(t, d)
    {
      u, notice, open := t, false, false;
      var i := 0;
      while i < |t|
        invariant 0 <= i <= |t| == |u|
        invariant forall j :: 0 <= j < |t| ==> u[j] == if j < i then CancelEntry(t[j], d) else t[j]
        invariant notice == exists j :: 0 <= j < i && t[j].dst == d && !t[j].Settled() && t[j].WantsNotice(EDEADSRCDST)
        invariant open == exists j :: 0 <= j < i && t[j].dst != d && !t[j].Settled()
      {
        var e := u[i];
        if !e.Settled() {
          if e.dst != d {
            open := true;
          } else {
            var r := if e.Bad() then EINVAL else EDEADSRCDST;
            u := u[i := e.Store(r)];
            notice := notice || e.WantsNotice(r);
          }
        }
        i := i + 1;
      }
    }

    /** cancel_async */
    method CancelAsync(src: nat, d: nat) returns (r: Code)
      requires Valid() && AllLocal(Abs()) && src < proc.Length && d < proc.Length
      modifies proc, priv, this`log
      ensures Valid() && Abs() == IpcSpec.CancelAsync(old(Abs()), src, d)
    {
      var p := priv[src];
      if !p.sysProc { return EPERM; }
      RegisterLocal(Abs(), src, false);
      PutRegistered(src, false);
      UnsetAsynLocal(Abs(), d, src);
      PutBit(d, src, false);
      if !p.registered { return EAGAIN; }
      if d !in p.ipcTo { return ECALLDENIED; }
      LocalAt(Abs(), StoreCancel(Abs(), src, d), src);
      var u, notice, open := FinishEntries(priv[src].table, d);
      PutPriv(src, priv[src].(table := u));
      ReportDone(src, notice);
      if open { PutRegistered(src, true); }
      return OK;
    }

    // ---------------------------------------------------------------- receiving

    /** The end of mini_receive, when nothing acceptable is there. */
    method ReceiveBlocking(c: nat, from: Target) returns (r: Code)
      requires Valid() && Acyclic(Waits(Abs())) && c < proc.Length
      requires (from.Ep? ==> 0 <= from.e < proc.Length) && (from == Ep(c) ==> BlockedOn(proc[c]) < 0)
      modifies proc
      ensures Valid() && (Abs(), r) == IpcSpec.ReceiveBlocking(old(Abs()), c, from)
    {
      var group := Deadlock(ByReceive, c, from);
      if group != 0 { return ELOCKED; }
      PutProc(c, proc[c].(getFrom := from, receiving := true));
      return OK;
    }

    method ReceiveQueued(c: nat, from: Target) returns (r: Code)
      requires Valid() && Abs().Shape() && Queues(Abs()) && Acyclic(Waits(Abs())) && c < proc.Length && !proc[c].sending
      requires (from.Ep? ==> 0 <= from.e < proc.Length) && (from == Ep(c) ==> !proc[c].receiving)
      modifies proc, callerQ, qLink, this`queues, this`log
      ensures Valid() && (Abs(), r) == IpcSpec.ReceiveQueued(old(Abs()), c, from) && Stale() == old(Stale())
    {
      var prev, x, i := FindSender(c, from);
      if x != NULL {
        TakeQueued(c, prev, x, i);
        return OK;
      }
      r := ReceiveBlocking(c, from);
    }

    method TakeNotice(c: nat, id: nat)
      requires Valid() && c < proc.Length
      modifies proc, priv, this`log
      ensures Valid() && Abs() == IpcSpec.TakeNotice(old(Abs()), c, id)
    {
      PutPriv(c, priv[c].(notifyPending := priv[c].notifyPending - {id}));
      FillBuffer(Notified(id, c));
      ReplyArrived(c);
    }

    method TryPending(c: nat, from: Target) returns (r: Code)
      requires Valid() && AllLocal(Abs()) && c < proc.Length && Idle(proc[c])
      requires from.Ep? ==> 0 <= from.e < proc.Length
      modifies proc, priv, this`log
      ensures Valid() && (Abs(), r) == IpcSpec.TryPending(old(Abs()), c, from)
    {
      assert Local(c, Abs().procs[c], Abs().privs[c]);
      if HasPending(priv[c].asynPending, from, proc.Length).None? { return ESRCH; }
      if from.Ep? { r := TryOne(from.e, c); } else { r := TryAsync(c); }
    }

    /** mini_receive */
    method MiniReceive(c: nat, from: Target) returns (r: Code)
      requires Valid() && Core(Abs()) && c < proc.Length && c < priv.Length
      requires MayReceive(proc[c], c, from) || Idle(proc[c])
      requires from.Ep? ==> 0 <= from.e < proc.Length
      modifies proc, priv, callerQ, qLink, this`queues, this`log
      ensures Valid() && (Abs(), r) == IpcSpec.MiniReceive(old(Abs()), c, from) && Stale() == old(Stale())
    {
      if from.Ep? && proc[from.e].noEndpoint { return EDEADSRCDST; }
      if proc[c].sending {
        r := ReceiveBlocking(c, from);
        return;
      }
      if !proc[c].replyPend {
        var id := HasPending(priv[c].notifyPending, from, proc.Length);
        if id.Some? {
          assert !proc[c].deliverMsg;
          TakeNotice(c, id.value);
          return OK;
        }
      }
      r := ReceiveWithoutNotice(c, from);
    }

    /** The rest of mini_receive: asynchronous messages, then the caller queue. */
    method ReceiveWithoutNotice(c: nat, from: Target) returns (r: Code)
      requires Valid() && Core(Abs()) && c < proc.Length && Idle(proc[c])
      requires from.Ep? ==> 0 <= from.e < proc.Length
      modifies proc, priv, callerQ, qLink, this`queues, this`log
      ensures Valid() && (Abs(), r) == ReceiveRest(old(Abs()), c, from) && Stale() == old(Stale())
    {
      PendingKeeps(Abs(), c, from);
      r := TryPending(c, from);
      if r == OK { ReplyArrived(c); } else { r := ReceiveQueued(c, from); }
    }

    // ---------------------------------------------------------------- exit

    /** clear_ipc. The link of `p` is left as it was, so it is clear afterwards exactly if `p` was
        last on its queue. */
    method ClearIpc(p: nat)
      requires Valid() && Abs().Shape() && Queues(Abs()) && p < proc.Length
      modifies proc, callerQ, qLink, this`queues, this`log
      ensures Valid() && Abs() == IpcSpec.ClearIpc(old(Abs()), p)
      ensures qLink[p] == old(qLink[p])
      ensures Stale() == old(Stale()) + LeftBySelf(old(Abs()), p)
    {
      if proc[p].sending {
        var d := proc[p].sendTo;
        QueueFacts(Abs());
        var prev, i := FindSelf(d, p);
        TakeOut(d, prev, p, i);
        log := log + [Cancelled(p, d, proc[p].sendMsg)];
        PutProc(p, proc[p].(sending := false));
      }
      PutProc(p, proc[p].(receiving := false));
    }

    /** The search of clear_ipc for `p` on the queue of `d`. */
    method FindSelf(d: nat, p: nat) returns (prev: int, ghost i: nat)
      requires Valid() && d < proc.Length && p < proc.Length && p in queues[d] && NoDuplicates(queues[d])
      ensures i < |queues[d]| && queues[d][i] == p && prev == if i == 0 then NULL else queues[d][i - 1]
      ensures qLink[p] == NULL <==> IsLast(queues, d, p)
    {
      ghost var q := queues[d];
      assert LinkedAt(d);
      i := 0;
      var x := callerQ[d];
      prev := NULL;
      while x != p
        invariant 0 <= i < |q| && x == q[i] && p in q[i..]
        invariant prev == if i == 0 then NULL else q[i - 1]
        decreases |q| - i
      {
        assert p in q[i + 1..];
        prev, x := x, qLink[x];
        i := i + 1;
      }
    }

    /** The bit clearing of one round of the table loop of clear_ipc_refs. */
    method DropBits(rc: nat, i: nat, code: Code)
      requires Valid() && rc < proc.Length && i < proc.Length
      modifies proc, priv
      ensures Valid() && Abs() == IpcExit.DropBits(old(Abs()), rc, i, code)
    {
      PutPriv(i, priv[i].(notifyPending := priv[i].notifyPending - {rc}, asynPending := priv[i].asynPending - {rc}));
      if BlockedOn(proc[i]) == rc { PutProc(i, proc[i].(retreg := code)); }
    }

    method ClearRef(rc: nat, i: nat, code: Code)
      requires Valid() && Core(Abs()) && FreeIdle(Abs()) && rc < proc.Length && i < proc.Length
      modifies proc, priv, callerQ, qLink, this`queues, this`log
      ensures Valid() && Abs() == IpcSpec.ClearRef(old(Abs()), rc, i, code) && Core(Abs())
      ensures Stale() == old(Stale()) + if i in old(queues)[rc] && !LastIs(old(queues)[rc], i) then {i} else {}
    {
      ClearRefKeeps(Abs(), rc, i, code);
      if proc[i].slotFree { return; }
      DropBitsKeeps(Abs(), rc, i, code);
      ClearRefIs(Abs(), rc, i, code);
      var blocked := BlockedOn(proc[i]) == rc;
      DropBits(rc, i, code);
      if blocked { ClearIpc(i); }
    }

    /** The table loop has arrived at slot `i`: what is left of the queue `q0` of `rc` are the higher slots,
        and those taken off with a higher slot behind have stale links. */
    ghost predicate Clearing(rc: nat, i: nat, q0: seq<nat>, stale0: set<nat>)
      requires rc < |queues|
      reads this`queues, qLink
    {
      queues[rc] == From(q0, i) && NoDuplicates(q0) && Stale() == stale0 + Exposed(q0, i)
    }

    /** One round of the table loop of clear_ipc_refs. */
    method ClearRound(rc: nat, i: nat, code: Code, ghost end: State, ghost q0: seq<nat>, ghost stale0: set<nat>)
      requires Valid() && Leading(Abs(), rc, i, code, end) && i < proc.Length && Clearing(rc, i, q0, stale0)
      modifies proc, priv, callerQ, qLink, this`queues, this`log
      ensures Valid() && Leading(Abs(), rc, i + 1, code, end) && Clearing(rc, i + 1, q0, stale0)
    {
      OneRound(Abs(), rc, i, code, end);
      RoundQueue(Abs(), rc, i, code, q0);
      ClearRef(rc, i, code);
    }

    /** The table loop of clear_ipc_refs. */
    method ClearLoop(rc: nat, code: Code, ghost end: State, ghost q0: seq<nat>, ghost stale0: set<nat>)
      requires Valid() && Leading(Abs(), rc, 0, code, end) && Clearing(rc, 0, q0, stale0)
      modifies proc, priv, callerQ, qLink, this`queues, this`log
      ensures Valid() && Leading(Abs(), rc, proc.Length, code, end) && Clearing(rc, proc.Length, q0, stale0)
    {
      var i := 0;
      while i < proc.Length
        invariant 0 <= i <= proc.Length && Valid() && Leading(Abs(), rc, i, code, end) && Clearing(rc, i, q0, stale0)
      {
        ClearRound(rc, i, code, end, q0, stale0);
        i := i + 1;
      }
    }

    lemma StartClearing(rc: nat)
      requires Valid() && Core(Abs()) && rc < proc.Length
      ensures Clearing(rc, 0, queues[rc], Stale())
    {
      QueueFacts(Abs());
      FromAll(queues[rc]);
      assert Exposed(queues[rc], 0) == {};
    }

    /** The second half of clear_ipc_refs. */
    method ClearTable(rc: nat, code: Code)
      requires Valid() && Core(Abs()) && FreeIdle(Abs()) && rc < proc.Length
      modifies proc, priv, callerQ, qLink, this`queues, this`log
      ensures Valid() && Abs() == ClearRefs(old(Abs()), rc, 0, code)
      ensures Stale() == old(Stale()) + Exposed(old(queues)[rc], proc.Length)
    {
      StartClearing(rc);
      ClearLoop(rc, code, ClearRefs(Abs(), rc, 0, code), queues[rc], Stale());
    }

    /** One round of the cancel loop: a bit is cleared. */
    method CancelOne(src: nat, rc: nat, ghost end: (State, Code))
      requires Valid() && Cancelling(Abs(), rc, end) && FirstFrom(priv[rc].asynPending, 0, proc.Length) == Some(src)
      modifies proc, priv, this`log
      ensures Valid() && Cancelling(Abs(), rc, end) && |priv[rc].asynPending| < |old(priv[rc].asynPending)|
    {
      CancelRound(Abs(), src, rc, end);
      CancelShrinks(Abs(), src, rc);
      var r := CancelAsync(src, rc);
    }

    /** The cancel loop of clear_ipc_refs; every round clears a bit. */
    method CancelPending(rc: nat)
      requires Valid() && Core(Abs()) && Pending(Abs()) && rc < proc.Length
      modifies proc, priv, this`log
      ensures Valid() && Core(Abs()) && (Abs(), OK) == CancelAll(old(Abs()), rc)
    {
      ghost var end := CancelAll(Abs(), rc);
      var src := FirstFrom(priv[rc].asynPending, 0, proc.Length);
      while src.Some?
        invariant Valid() && Cancelling(Abs(), rc, end)
        invariant src == FirstFrom(priv[rc].asynPending, 0, proc.Length)
        decreases |priv[rc].asynPending|
      {
        CancelOne(src.value, rc, end);
        src := FirstFrom(priv[rc].asynPending, 0, proc.Length);
      }
    }

    /** clear_ipc_refs */
    method ClearIpcRefs(rc: nat, code: Code)
      requires Valid() && Core(Abs()) && Pending(Abs()) && FreeIdle(Abs()) && rc < proc.Length
      modifies proc, priv, callerQ, qLink, this`queues, this`log
      ensures Valid() && (Abs(), OK) == IpcSpec.ClearIpcRefs(old(Abs()), rc, code)
      ensures Stale() == old(Stale()) + Exposed(old(queues)[rc], proc.Length)
    {
      CancelIdle(Abs(), rc);
      CancelPending(rc);
      ClearTable(rc, code);
    }

    /** clear_endpoint before its call of clear_ipc_refs. */
    method Leave(rc: nat)
      requires Valid() && Core(Abs()) && rc < proc.Length
      modifies proc, priv, callerQ, qLink, this`queues, this`log
      ensures Valid() && Abs() == IpcSpec.ClearIpc(Kill(old(Abs()), rc), rc)
      ensures Stale() == old(Stale()) + LeftBySelf(old(Abs()), rc)
    {
      KillKeeps(Abs(), rc);
      Disconnect(rc);
      ClearIpc(rc);
    }

    /** The slot cannot be reached any more and its table of asynchronous sends is dropped. */
    method Disconnect(rc: nat)
      requires Valid() && rc < proc.Length
      modifies proc, priv
      ensures Valid() && Abs() == Kill(old(Abs()), rc)
    {
      PutProc(rc, proc[rc].(noEndpoint := true));
      if priv[rc].sysProc { PutRegistered(rc, false); }
    }

    /** clear_endpoint. It leaves stale links behind, and these only. */
    method ClearEndpoint(rc: nat)
      requires Valid() && Core(Abs()) && Pending(Abs()) && FreeIdle(Abs()) && rc < proc.Length
      modifies proc, priv, callerQ, qLink, this`queues, this`log
      ensures Valid() && (Abs(), OK) == IpcSpec.ClearEndpoint(old(Abs()), rc)
      ensures Stale() == old(Stale()) + LeftStale(old(Abs()), rc)
    {
      LeavingKeeps(Abs(), rc);
      LeavingQueue(Abs(), rc);
      Leave(rc);
      ClearIpcRefs(rc, EDEADSRCDST);
    }

    // ---------------------------------------------------------------- kernel entries

    /** The send of a SENDREC. */
    method FirstHalf(c: nat, d: nat, msg: Option<Body>) returns (r: Code, panic: bool)
      requires Valid() && Core(Abs()) && c < proc.Length && d < proc.Length && c != d && Idle(proc[c])
      modifies proc, callerQ, qLink, this`queues, this`log
      ensures panic <==> BlocksSend(old(Abs()), c, d, msg) && old(qLink[c]) != NULL
      ensures !panic ==> Valid() && (Abs(), r) == IpcSpec.MiniSend(SetReply(old(Abs()), c), c, d, msg, false) && Stale() == old(Stale())
      ensures !panic && r == OK ==> Core(Abs()) && MayReceive(proc[c], c, Ep(d))
    {
      FirstHalfKeeps(Abs(), c, d, msg);
      AwaitReply(c);
      r, panic := MiniSend(c, d, msg, false);
    }

    method AwaitReply(c: nat)
      requires Valid() && c < proc.Length
      modifies proc
      ensures Valid() && Abs() == SetReply(old(Abs()), c)
    {
      PutProc(c, proc[c].(replyPend := true));
    }

    method SendReceive(c: nat, d: nat, msg: Option<Body>) returns (r: Code, panic: bool)
      requires Valid() && Core(Abs()) && c < proc.Length && d < proc.Length && c != d && Idle(proc[c])
      modifies proc, priv, callerQ, qLink, this`queues, this`log
      ensures panic <==> BlocksSend(old(Abs()), c, d, msg) && old(qLink[c]) != NULL
      ensures !panic ==> Valid() && (Abs(), r) == IpcSpec.SendReceive(old(Abs()), c, d, msg) && Stale() == old(Stale())
    {
      r, panic := FirstHalf(c, d, msg);
      if panic || r != OK { return; }
      r := MiniReceive(c, Ep(d));
    }

    /** A RECEIVE, which waits for no reply in particular. */
    method Receive(c: nat, from: Target) returns (r: Code)
      requires Valid() && Core(Abs()) && c < proc.Length && Idle(proc[c])
      requires from.Ep? ==> 0 <= from.e < proc.Length
      modifies proc, priv, callerQ, qLink, this`queues, this`log
      ensures Valid() && (Abs(), r) == IpcSpec.MiniReceive(ClearReply(old(Abs()), c), c, from) && Stale() == old(Stale())
    {
      ClearReplyKeeps(Abs(), c);
      ReplyArrived(c);
      r := MiniReceive(c, from);
    }

    /** The checks of do_sync_ipc. */
    method Check(c: nat, call: Call, to: Target) returns (r: Code)
      requires Valid() && c < proc.Length
      ensures r == Denial(Abs(), c, call, to)
    {
      if to == ANY && call != RECEIVE { return EINVAL; }
      if to.Ep? {
        if !(0 <= to.e < proc.Length && !proc[to.e].slotFree) { return EDEADSRCDST; }
        if call != RECEIVE && to.e !in priv[c].ipcTo { return ECALLDENIED; }
      }
      if call !in priv[c].traps { return ETRAPDENIED; }
      if call != SENDREC && call != RECEIVE && to.e < NR_TASKS { return ETRAPDENIED; }
      return OK;
    }

    /** The three calls that send. */
    method Send(c: nat, call: Call, d: nat, msg: Option<Body>) returns (r: Code, panic: bool)
      requires Valid() && Core(Abs()) && c < proc.Length && d < proc.Length && c != d && Idle(proc[c])
      requires call == SEND || call == SENDNB || call == SENDREC
      modifies proc, priv, callerQ, qLink, this`queues, this`log
      ensures panic <==> call != SENDNB && BlocksSend(old(Abs()), c, d, msg) && old(qLink[c]) != NULL
      ensures !panic ==> Valid() && Stale() == old(Stale())
      ensures !panic ==> (Abs(), r) == if call == SENDREC then IpcSpec.SendReceive(old(Abs()), c, d, msg)
        else IpcSpec.MiniSend(old(Abs()), c, d, msg, call == SENDNB)
    {
      if call == SENDREC {
        r, panic := SendReceive(c, d, msg);
      } else {
        r, panic := MiniSend(c, d, msg, call == SENDNB);
      }
    }

    /** do_sync_ipc */
    method DoSyncIpc(c: nat, call: Call, to: Target, msg: Option<Body>) returns (r: Code, panic: bool)
      requires Valid() && Core(Abs()) && Possible(Abs(), Trap(c, call, to, msg))
      modifies proc, priv, callerQ, qLink, this`queues, this`log
      ensures panic <==> Blocks(old(Abs()), Trap(c, call, to, msg)) && old(qLink[c]) != NULL
      ensures !panic ==> Valid() && (Abs(), r) == IpcSpec.DoSyncIpc(old(Abs()), c, call, to, msg) && Stale() == old(Stale())
    {
      r := Check(c, call, to);
      panic := false;
      if r != OK { return; }
      assert Local(c, Abs().procs[c], Abs().privs[c]);
      match call
      case NOTIFY => r := MiniNotify(c, to.e);
      case RECEIVE => r := Receive(c, to);
      case _ => r, panic := Send(c, call, to.e, msg);
    }

    /** Steps that only change flags of `p`. */
    method PutFlags(p: nat, q: Proc)
      requires Valid() && p < proc.Length
      modifies proc
      ensures Valid() && Abs() == old(Abs()).With(p, q)
    {
      PutProc(p, q);
    }

    method DispatchTrap(step: Step) returns (r: Code, panic: bool)
      requires Valid() && Core(Abs()) && Possible(Abs(), step) && step.Trap?
      modifies proc, priv, callerQ, qLink, this`queues, this`log
      ensures panic <==> Blocks(old(Abs()), step) && old(qLink[Caller(step)]) != NULL
      ensures !panic ==> Valid() && (Abs(), r) == Apply(old(Abs()), step) && Stale() == old(Stale()) + Leftovers(old(Abs()), step)
    {
      r, panic := DoSyncIpc(step.c, step.call, step.to, step.msg);
    }

    method DispatchQuantum(step: Step) returns (r: Code, panic: bool)
      requires Valid() && Core(Abs()) && Possible(Abs(), step) && step.OutOfQuantum?
      modifies proc, priv, callerQ, qLink, this`queues, this`log
      ensures panic <==> Blocks(old(Abs()), step) && old(qLink[Caller(step)]) != NULL
      ensures !panic ==> Valid() && (Abs(), r) == Apply(old(Abs()), step) && Stale() == old(Stale()) + Leftovers(old(Abs()), step)
    {
      r, panic := NotifyScheduler(step.p, step.d, step.body);
    }

    method Dispatch(step: Step) returns (r: Code, panic: bool)
      requires Valid() && Core(Abs()) && Pending(Abs()) && FreeIdle(Abs()) && Possible(Abs(), step)
      modifies proc, priv, callerQ, qLink, this`queues, this`log
      ensures panic <==> Blocks(old(Abs()), step) && old(qLink[Caller(step)]) != NULL
      ensures !panic ==> Valid() && (Abs(), r) == Apply(old(Abs()), step) && Stale() == old(Stale()) + Leftovers(old(Abs()), step)
    {
      if step.Trap? {
        r, panic := DispatchTrap(step);
      } else if step.OutOfQuantum? {
        r, panic := DispatchQuantum(step);
      } else if step.Exit? {
        ClearEndpoint(step.rc);
        return OK, false;
      } else {
        r := Manage(step);
        panic := false;
      }
    }

    /** The steps that put nobody on a queue and take nobody off. */
    method Manage(step: Step) returns (r: Code)
      requires Valid() && AllLocal(Abs()) && Abs().Shape() && Possible(Abs(), step)
      requires !step.Trap? && !step.OutOfQuantum? && !step.Exit?
      modifies proc, priv, this`log
      ensures Valid() && (Abs(), r) == Apply(old(Abs()), step)
    {
      r := OK;
      match step
      case Senda(c, table) => r := MiniSenda(c, table);
      case Signal(src, dst) => r := MiniNotify(src, dst);
      case CopyOut(p) => CopyMessage(p);
      case Halt(p, f) => PutFlags(p, proc[p].(stops := proc[p].stops + {f}));
      case Continue(p, f) => PutFlags(p, proc[p].(stops := proc[p].stops - {f}));
    }

    /** delivermsg */
    method CopyMessage(p: nat)
      requires Valid() && p < proc.Length
      modifies proc, this`log
      ensures Valid() && Abs() == Delivered(old(Abs()), p)
    {
      log := log + [Copied(p, proc[p].delivered)];
      PutProc(p, proc[p].(deliverMsg := false));
    }

    /** Every kernel entry does to the linked table what its function does to the contents, keeps the
        invariant unless its caller is made to wait for itself, and returns, or stops at the assertion
        about the link of a caller that is to block. Only exit leaves stale links, and while there are none
        the kernel does not stop. */
    method Enter(step: Step) returns (r: Code, panic: bool)
      requires Valid() && Inv(Abs()) && Possible(Abs(), step)
      modifies proc, priv, callerQ, qLink, this`queues, this`log
      ensures panic <==> Blocks(old(Abs()), step) && old(qLink[Caller(step)]) != NULL
      ensures panic ==> Caller(step) in old(Stale())
      ensures !panic ==> Valid() && (Abs(), r) == Apply(old(Abs()), step) && r != Hung
      ensures !panic ==> (Inv(Abs()) <==> !SelfWait(old(Abs()), step))
      ensures !panic ==> Stale() == old(Stale()) + Leftovers(old(Abs()), step)
    {
      IpcTheorems.KeptExactly(Abs(), step);
      LivingIdle(Abs());
      StopsOnlyStale(step);
      r, panic := Dispatch(step);
    }

    lemma StopsOnlyStale(step: Step)
      requires Valid() && Core(Abs()) && Possible(Abs(), step)
      ensures Blocks(Abs(), step) && qLink[Caller(step)] != NULL ==> Caller(step) in Stale()
    {
      if Blocks(Abs(), step) {
        CallerNowhere(Abs(), step);
        assert qLink[..][Caller(step)] == qLink[Caller(step)];
      }
    }

    /** notify_scheduler */
    method NotifyScheduler(p: nat, d: nat, body: Body) returns (r: Code, panic: bool)
      requires Valid() && Core(Abs()) && Possible(Abs(), OutOfQuantum(p, d, body))
      modifies proc, callerQ, qLink, this`queues, this`log
      ensures panic <==> BlocksSend(old(Abs()), p, d, Some(body)) && old(qLink[p]) != NULL
      ensures !panic ==> Valid() && (Abs(), r) == Apply(old(Abs()), OutOfQuantum(p, d, body)) && Stale() == old(Stale())
    {
      QuantumBlocks(Abs(), p, d, body);
      PutFlags(p, proc[p].(stops := proc[p].stops + {NO_QUANTUM}));
      r, panic := MiniSend(p, d, Some(body), false);
    }
  }

  /** The links that a step leaves stale. */
  ghost function Leftovers(s: State, step: Step): set<nat>
    requires s.Sized() && Possible(s, step)
  {
    if step.Exit? then LeftStale(s, step.rc) else {}
  }

  lemma LivingIdle(s: State)
    requires LivingOnly(s)
    ensures FreeIdle(s)
  {
    forall p | 0 <= p < s.Size() && s.procs[p].slotFree ensures !s.procs[p].sending && !s.procs[p].receiving {
      assert !Alive(s, p);
    }
  }

  /** Whoever enters the kernel is on no queue. */
  lemma CallerNowhere(s: State, step: Step)
    requires s.Shape() && Queues(s) && Possible(s, step) && Blocks(s, step)
    ensures 0 <= Caller(step) < s.Size() && Nowhere(s.queues, Caller(step))
  {
  }

  lemma QuantumBlocks(s: State, p: nat, d: nat, body: Body)
    requires Core(s) && Possible(s, OutOfQuantum(p, d, body))
    ensures var t := SetStops(s, p, s.procs[p].stops + {NO_QUANTUM});
      Core(t) && (BlocksSend(t, p, d, Some(body)) <==> BlocksSend(s, p, d, Some(body)))
  {
    var t := SetStops(s, p, s.procs[p].stops + {NO_QUANTUM});
    FlagsCore(s, p, t.procs[p]);
    assert Waits(t) == Waits(s);
    SameBlocks(s, t, p, d, Some(body));
  }
}
