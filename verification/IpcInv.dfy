/** The invariant of message passing, and that the building blocks of the system calls keep
    it. */
module IpcInv {
  import opened IpcTypes
  import opened WaitGraph
  import opened Lists
  import opened IpcSpec

  /** What holds of a single process, alone or with its privilege structure.
      - Only a blocked SENDREC both sends and receives, and then to and from one process.
      - A process with a message in its buffer does not wait.
      - Nobody waits for itself or may send to itself.
      - A process that would take a notification has none pending. */
  ghost predicate Local(i: nat, p: Proc, v: Priv) {
    && (p.sending && p.receiving ==> p.getFrom == Ep(p.sendTo) && p.replyPend)
    && (p.deliverMsg ==> !p.sending && !p.receiving)
    && (p.sending ==> p.sendTo != i)
    && (p.receiving ==> p.getFrom != Ep(i))
    && (p.receiving && !p.sending && !p.replyPend ==>
        forall x :: x in v.notifyPending ==> !Accepts(p.getFrom, x))
    && i !in v.asynPending && i !in v.ipcTo
  }

  ghost predicate AllLocal(s: State)
    requires s.Sized()
  {
    forall i :: 0 <= i < s.Size() ==> Local(i, s.procs[i], s.privs[i])
  }

  /** The caller queue of `d` holds, once each, exactly the processes that send to `d`. */
  ghost predicate Queues(s: State)
    requires s.Shape()
  {
    && (forall d :: 0 <= d < s.Size() ==> NoDuplicates(s.queues[d]))
    && (forall d, x :: 0 <= d < s.Size() && 0 <= x < s.Size() ==>
          (x in s.queues[d] <==> s.procs[x].sending && s.procs[x].sendTo == d))
  }

  /** No process waits on the queue of another that would take its message. */
  ghost predicate NoMissedRendezvous(s: State)
    requires s.Shape()
  {
    forall d, x :: 0 <= d < s.Size() && x in s.queues[d] ==> !WillReceive(s.procs[d], x)
  }

  ghost predicate Core(s: State) {
    && s.Shape()
    && AllLocal(s)
    && Queues(s)
    && NoMissedRendezvous(s)
    && Acyclic(Waits(s))
  }

  predicate Alive(s: State, e: int) {
    0 <= e < s.Size() && !s.procs[e].slotFree && !s.procs[e].noEndpoint
  }

  /** Nobody waits for a process that is gone, and processes that are gone do not wait. */
  ghost predicate LivingOnly(s: State) {
    && (forall i, e :: 0 <= i < s.Size() && 0 <= e < s.Size() && BlockedOn(s.procs[i]) == e ==> Alive(s, e))
    && (forall i :: 0 <= i < s.Size() && !Alive(s, i) ==> !s.procs[i].sending && !s.procs[i].receiving)
  }

  // ---------------------------------------------------------------- when nobody starts to wait

  lemma KeepsWaits(s: State, t: State)
    requires Core(s) && Keeps(s, t)
    ensures t.Shape() && Queues(t) && NoMissedRendezvous(t) && Acyclic(Waits(t))
  {
    forall x | 0 <= x < s.Size() ensures Waits(t)[x] == Waits(s)[x] || Waits(t)[x] < 0 {
      assert Calmer(s.procs[x], t.procs[x]);
    }
    FewerEdges(Waits(s), Waits(t));
    forall d, x | 0 <= d < s.Size() && x in t.queues[d]
      ensures t.procs[x].sending && t.procs[x].sendTo == d && !WillReceive(t.procs[d], x)
    {
      assert Calmer(s.procs[x], t.procs[x]) && Calmer(s.procs[d], t.procs[d]);
      assert !WillReceive(s.procs[d], x);
    }
  }

  /** Only slot `i` has changed, and it still satisfies its own invariant. */
  lemma LocalAt(s: State, t: State, i: nat)
    requires s.Sized() && AllLocal(s) && t.Sized() && i < s.Size() == t.Size()
    requires t.procs == s.procs[i := t.procs[i]] && t.privs == s.privs[i := t.privs[i]]
    requires Local(i, t.procs[i], t.privs[i])
    ensures AllLocal(t)
  {
  }

  lemma PlaceLocal(s: State, e: Event)
    requires s.Sized() && AllLocal(s) && e.Arrives() && e.dst < s.Size() && !s.procs[e.dst].sending
    ensures AllLocal(Place(s, e))
  {
    LocalAt(s, Place(s, e), e.dst);
  }

  /** Changes of a privilege structure that add no notification. */
  lemma NotifyLocal(s: State, src: nat, dst: int)
    requires s.Sized() && AllLocal(s) && src < s.Size()
    ensures AllLocal(MiniNotify(s, src, dst).0)
  {
    if OkEndpoint(s, dst) { LocalAt(s, MiniNotify(s, src, dst).0, dst); }
  }

  lemma PlaceKeeps(s: State, e: Event)
    requires Core(s) && e.Arrives() && e.dst < s.Size() && !s.procs[e.dst].sending
    ensures Core(Place(s, e))
  {
    KeepsWaits(s, Place(s, e));
    PlaceLocal(s, e);
  }

  lemma ClearReplyKeeps(s: State, d: nat)
    requires Core(s) && d < s.Size() && !s.procs[d].receiving
    ensures Core(ClearReply(s, d))
  {
    KeepsWaits(s, ClearReply(s, d));
    LocalAt(s, ClearReply(s, d), d);
  }

  lemma SetReplyKeeps(s: State, d: nat)
    requires Core(s) && d < s.Size()
    ensures Core(SetReply(s, d))
  {
    KeepsWaits(s, SetReply(s, d));
    LocalAt(s, SetReply(s, d), d);
  }

  lemma NotifyKeeps(s: State, src: nat, dst: int)
    requires Core(s) && src < s.Size()
    ensures Core(MiniNotify(s, src, dst).0)
  {
    KeepsWaits(s, MiniNotify(s, src, dst).0);
    NotifyLocal(s, src, dst);
  }

  /** The history plays no part in the invariant of the tables. */
  lemma NoteKeeps(s: State, es: seq<Event>)
    requires Core(s)
    ensures Core(s.Note(es))
  {
    assert Waits(s.Note(es)) == Waits(s);
  }

  // ---------------------------------------------------------------- blocking and unblocking

  lemma BlockSendQueues(s: State, c: nat, d: nat, body: Body)
    requires s.Shape() && Queues(s) && c < s.Size() && d < s.Size()
    requires !s.procs[c].sending && !s.procs[c].receiving
    ensures var t := BlockSend(s, c, d, body); t.Shape() && Queues(t)
  {
    var t := BlockSend(s, c, d, body);
    var q := s.queues[d];
    assert c !in q;
    assert NoDuplicates(q + [c]);
    assert forall x :: x in t.queues[d] <==> x in q || x == c;
  }

  lemma BlockSendMeets(s: State, c: nat, d: nat, body: Body)
    requires s.Shape() && NoMissedRendezvous(s) && c < s.Size() && d < s.Size()
    requires !s.procs[c].receiving && !WillReceive(s.procs[d], c)
    requires BlockSend(s, c, d, body).Shape()
    ensures NoMissedRendezvous(BlockSend(s, c, d, body))
  {
    var t := BlockSend(s, c, d, body);
    forall e, x | 0 <= e < s.Size() && x in t.queues[e] ensures !WillReceive(t.procs[e], x) {
      assert x in s.queues[e] || (e == d && x == c);
    }
  }

  lemma BlockSendKeeps(s: State, c: nat, d: nat, body: Body)
    requires Core(s) && c < s.Size() && d < s.Size() && c != d
    requires !s.procs[c].sending && !s.procs[c].receiving && !s.procs[c].deliverMsg
    requires !WillReceive(s.procs[d], c) && !Reaches(Waits(s), d, c)
    ensures Core(BlockSend(s, c, d, body))
  {
    var t := BlockSend(s, c, d, body);
    BlockSendQueues(s, c, d, body);
    BlockSendMeets(s, c, d, body);
    LocalAt(s, t, c);
    assert Acyclic(Waits(t)) by {
      AddEdge(Waits(s), c, d);
      assert Waits(t) == Waits(s)[c := d];
    }
  }

  /** `c` has looked in vain for a message that `from` accepts. */
  ghost predicate NothingFor(s: State, c: nat, from: Target)
    requires s.Shape() && c < s.Size()
  {
    && (forall x :: x in s.queues[c] ==> !Accepts(from, x))
    && (!s.procs[c].replyPend ==> forall x :: x in s.privs[c].notifyPending ==> !Accepts(from, x))
  }

  lemma BlockReceiveGraph(s: State, c: nat, from: Target)
    requires s.Shape() && Acyclic(Waits(s)) && c < s.Size() && (from.Ep? ==> 0 <= from.e < s.Size())
    requires !s.procs[c].receiving
    requires !s.procs[c].sending && from.Ep? ==> !Reaches(Waits(s), from.e, c)
    ensures Acyclic(Waits(BlockReceive(s, c, from)))
  {
    var t := BlockReceive(s, c, from);
    if s.procs[c].sending || from == ANY {
      assert Waits(t) == Waits(s);
    } else {
      AddEdge(Waits(s), c, from.e);
      assert Waits(t) == Waits(s)[c := from.e];
    }
  }

  lemma BlockReceiveQueues(s: State, c: nat, from: Target)
    requires s.Shape() && Queues(s) && NoMissedRendezvous(s) && c < s.Size()
    requires from.Ep? ==> 0 <= from.e < s.Size()
    requires s.procs[c].sending || NothingFor(s, c, from)
    ensures var t := BlockReceive(s, c, from); t.Shape() && Queues(t) && NoMissedRendezvous(t)
  {
  }

  lemma BlockReceiveKeeps(s: State, c: nat, from: Target)
    requires Core(s) && c < s.Size() && (from.Ep? ==> 0 <= from.e < s.Size() && from.e != c)
    requires !s.procs[c].receiving && !s.procs[c].deliverMsg
    requires if s.procs[c].sending then from == Ep(s.procs[c].sendTo) && s.procs[c].replyPend
             else NothingFor(s, c, from) && (from.Ep? ==> !Reaches(Waits(s), from.e, c))
    ensures Core(BlockReceive(s, c, from))
  {
    BlockReceiveGraph(s, c, from);
    BlockReceiveQueues(s, c, from);
    LocalAt(s, BlockReceive(s, c, from), c);
  }

  lemma BackAndForth(g: Graph, x: nat, y: nat)
    requires x < |g| && y < |g| && g[y] == x && g[x] == y
    ensures IsPath(g, [x, y, x])
  {
  }

  /** Two processes never wait for each other. */
  lemma NotMutual(g: Graph, x: nat, y: nat)
    requires Acyclic(g) && x < |g| && y < |g| && g[y] == x
    ensures g[x] != y
  {
    if g[x] == y {
      BackAndForth(g, x, y);
      assert false;
    }
  }

  lemma UnqueueQueues(s: State, p: nat, d: nat)
    requires s.Shape() && Queues(s) && p < s.Size() && s.procs[p].sending && s.procs[p].sendTo == d
    ensures var t := Unqueue(s, p, d); t.Shape() && Queues(t)
  {
    WithoutMembers(s.queues[d], p);
  }

  /** A blocked SENDREC that has sent becomes a pure receiver. Its partner cannot be on its
      queue, or the two would have been waiting for each other. */
  lemma UnqueueMeets(s: State, p: nat, d: nat)
    requires Core(s) && p < s.Size() && s.procs[p].sending && s.procs[p].sendTo == d
    ensures var t := Unqueue(s, p, d); t.Shape() && NoMissedRendezvous(t)
  {
    var t := Unqueue(s, p, d);
    UnqueueQueues(s, p, d);
    forall b, x | 0 <= b < s.Size() && x in t.queues[b] ensures !WillReceive(t.procs[b], x) {
      assert x in s.queues[b];
      if b == p {
        NotMutual(Waits(s), p, x);
      } else {
        assert !WillReceive(s.procs[b], x);
      }
    }
  }

  lemma UnqueueKeeps(s: State, p: nat, d: nat)
    requires Core(s) && p < s.Size() && s.procs[p].sending && s.procs[p].sendTo == d
    ensures Core(Unqueue(s, p, d))
  {
    var t := Unqueue(s, p, d);
    UnqueueQueues(s, p, d);
    UnqueueMeets(s, p, d);
    assert Acyclic(Waits(t)) by {
      FewerEdges(Waits(s), Waits(t));
    }
  }
}
