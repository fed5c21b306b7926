/** Conservation and order of messages: the history of every sender balances, and caller queues
    are in the order in which the sends were accepted. */
module IpcHistory {
  import opened IpcTypes
  import opened Lists
  import opened IpcSpec
  import opened IpcInv

  /** What sends of `p` have been accepted, in order. */
  function Posted(log: seq<Event>, p: nat): seq<Letter> {
    if log == [] then []
    else
      var e := log[|log| - 1];
      Posted(log[..|log| - 1], p) + (if e.Accepted? && e.src == p then [Letter(e.dst, e.body)] else [])
  }

  /** What messages of `p` have been put in a buffer or given up, in order. */
  function Settled(log: seq<Event>, p: nat): seq<Letter> {
    if log == [] then []
    else
      var e := log[|log| - 1];
      Settled(log[..|log| - 1], p) +
        (if (e.Placed? || e.Cancelled?) && e.src == p then [Letter(e.dst, e.body)] else [])
  }

  /** The message that waits with `p` on a caller queue. */
  function InFlight(p: Proc): seq<Letter> {
    if p.sending then [Letter(p.sendTo, p.sendMsg)] else []
  }

  /** When the last send of `p` was accepted. */
  function LastPost(log: seq<Event>, p: nat): (k: int)
    ensures -1 <= k < |log|
  {
    if log == [] then -1
    else
      var e := log[|log| - 1];
      if e.Accepted? && e.src == p then |log| - 1 else LastPost(log[..|log| - 1], p)
  }

  /** Each accepted message of each process is settled exactly once, unchanged and in order, or
      waits with its sender. */
  ghost predicate Ledger(s: State) {
    forall p :: 0 <= p < s.Size() ==> Posted(s.log, p) == Settled(s.log, p) + InFlight(s.procs[p])
  }

  ghost predicate InOrder(log: seq<Event>, q: seq<nat>) {
    forall i, j :: 0 <= i < j < |q| ==> LastPost(log, q[i]) < LastPost(log, q[j])
  }

  /** First come, first on the queue. */
  ghost predicate Fifo(s: State) {
    forall d :: 0 <= d < |s.queues| ==> InOrder(s.log, s.queues[d])
  }

  ghost predicate Books(s: State) { Ledger(s) && Fifo(s) }

  // ---------------------------------------------------------------- adding to the history

  lemma Append(log: seq<Event>, e: Event, p: nat)
    ensures Posted(log + [e], p) == Posted(log, p) + (if e.Accepted? && e.src == p then [Letter(e.dst, e.body)] else [])
    ensures Settled(log + [e], p) == Settled(log, p) +
      (if (e.Placed? || e.Cancelled?) && e.src == p then [Letter(e.dst, e.body)] else [])
    ensures LastPost(log + [e], p) == if e.Accepted? && e.src == p then |log| else LastPost(log, p)
  {
    assert (log + [e])[..|log|] == log;
  }

  lemma {:induction false} QuietSame(was: seq<Event>, now: seq<Event>, p: nat)
    requires Quiet(was, now)
    ensures Posted(now, p) == Posted(was, p) && Settled(now, p) == Settled(was, p) && LastPost(now, p) == LastPost(was, p)
    decreases |now|
  {
    if |now| == |was| {
      assert now == was;
    } else {
      var shorter := now[..|now| - 1];
      assert shorter[..|was|] == was;
      QuietSame(was, shorter, p);
    }
  }

  /** Events of notifications and asynchronous sends leave the books alone. */
  lemma QuietBooks(s: State, t: State)
    requires Books(s) && Keeps(s, t) && Quiet(s.log, t.log)
    ensures Books(t)
  {
    forall p: nat ensures Posted(t.log, p) == Posted(s.log, p) && Settled(t.log, p) == Settled(s.log, p)
      && LastPost(t.log, p) == LastPost(s.log, p)
    {
      QuietSame(s.log, t.log, p);
    }
    forall p | 0 <= p < t.Size() ensures Posted(t.log, p) == Settled(t.log, p) + InFlight(t.procs[p]) {
      assert Calmer(s.procs[p], t.procs[p]);
    }
    forall d | 0 <= d < |t.queues| ensures InOrder(t.log, t.queues[d]) {
      assert InOrder(s.log, s.queues[d]);
    }
  }

  lemma OneEvent(s: State, e: Event)
    ensures forall p: nat ::
      && Posted(s.log + [e], p) == Posted(s.log, p) + (if e.Accepted? && e.src == p then [Letter(e.dst, e.body)] else [])
      && Settled(s.log + [e], p) ==
         Settled(s.log, p) + (if (e.Placed? || e.Cancelled?) && e.src == p then [Letter(e.dst, e.body)] else [])
      && LastPost(s.log + [e], p) == (if e.Accepted? && e.src == p then |s.log| else LastPost(s.log, p))
  {
    forall p: nat { Append(s.log, e, p); }
  }

  lemma DirectBooks(s: State, c: nat, d: nat, body: Body)
    requires s.Shape() && Queues(s) && Books(s) && c < s.Size() && d < s.Size() && !s.procs[c].sending
    ensures Books(DirectSend(s, c, d, body))
  {
    var u := s.Note([Accepted(c, d, body)]);
    var t := DirectSend(s, c, d, body);
    OneEvent(s, Accepted(c, d, body));
    OneEvent(u, Placed(c, d, body));
    forall b | 0 <= b < s.Size() ensures InOrder(t.log, t.queues[b]) {
      assert c !in s.queues[b] && InOrder(s.log, s.queues[b]);
    }
  }

  lemma BlockSendBooks(s: State, c: nat, d: nat, body: Body)
    requires s.Shape() && Queues(s) && Books(s) && c < s.Size() && d < s.Size() && !s.procs[c].sending
    ensures Books(BlockSend(s, c, d, body))
  {
    var t := BlockSend(s, c, d, body);
    OneEvent(s, Accepted(c, d, body));
    forall b | 0 <= b < s.Size() ensures InOrder(t.log, t.queues[b]) {
      assert c !in s.queues[b] && InOrder(s.log, s.queues[b]);
    }
  }

  lemma {:induction false} WithoutInOrder(log: seq<Event>, q: seq<nat>, p: nat)
    requires InOrder(log, q)
    ensures InOrder(log, Without(q, p))
    ensures forall x :: x in Without(q, p) ==> x in q
  {
    if q != [] && q[0] != p {
      var rest := q[1..];
      WithoutInOrder(log, rest, p);
      var r := Without(q, p);
      forall i, j | 0 <= i < j < |r| ensures LastPost(log, r[i]) < LastPost(log, r[j]) {
        if i == 0 {
          assert r[j] in rest;
          var k :| 0 <= k < |rest| && rest[k] == r[j];
          assert q[k + 1] == r[j];
        }
      }
    }
  }

  /** A sender leaves its queue together with its last event. */
  lemma UnqueueBooks(s: State, p: nat, d: nat, e: Event)
    requires s.Shape() && Books(s) && p < s.Size() && d < s.Size()
    requires s.procs[p].sending && s.procs[p].sendTo == d
    requires e == Placed(p, d, s.procs[p].sendMsg) || e == Cancelled(p, d, s.procs[p].sendMsg)
    ensures Books(Unqueue(s, p, d).Note([e]))
  {
    var t := Unqueue(s, p, d).Note([e]);
    OneEvent(s, e);
    forall b | 0 <= b < s.Size() ensures InOrder(t.log, t.queues[b]) {
      assert InOrder(s.log, s.queues[b]);
      if b == d { WithoutInOrder(s.log, s.queues[d], p); }
    }
  }

  /** The books depend on the history, the queues and what queued senders hold. */
  lemma SameBooks(s: State, t: State)
    requires Books(s) && t.log == s.log && t.queues == s.queues && t.Size() == s.Size()
    requires forall p :: 0 <= p < s.Size() ==> InFlight(t.procs[p]) == InFlight(s.procs[p])
    ensures Books(t)
  {
  }

  lemma TakeBooks(s: State, c: nat, p: nat)
    requires s.Shape() && Books(s) && c < s.Size() && p < s.Size() && p != c
    requires s.procs[p].sending && s.procs[p].sendTo == c
    ensures Books(TakeQueued(s, c, p))
  {
    var e := Placed(p, c, s.procs[p].sendMsg);
    UnqueueBooks(s, p, c, e);
    SameBooks(Unqueue(s, p, c).Note([e]), TakeQueued(s, c, p));
  }
}
