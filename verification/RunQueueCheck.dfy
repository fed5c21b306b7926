/** The checker of the run queues. It is given tables whose links may lead anywhere: out of the
    table, in circles, or from one queue into another. */
module RunQueueCheck {
  import opened Lists
  import opened RunQueue
  import opened RunQueueTable

  /** The links hold `queues`, which file exactly the runnable processes, each once and under its
      priority. */
  ghost predicate Holds(slots: seq<Slot>, head: seq<int>, tail: seq<int>, next: seq<int>, queues: seq<seq<nat>>) {
    && |queues| == |head| == |tail| == NR_SCHED_QUEUES && |next| == |slots|
    && (forall a :: 0 <= a < NR_SCHED_QUEUES ==> Wired(head[a], tail[a], next, queues[a]))
    && Filed(Sched(slots, queues, IDLE))
    && (forall x :: 0 <= x < |slots| ==> slots[x].magic && (slots[x].Runnable() ==> slots[x].priority < NR_SCHED_QUEUES))
  }

  /** The run-queue invariant of a linked table. */
  ghost predicate Sane(slots: seq<Slot>, head: seq<int>, tail: seq<int>, next: seq<int>) {
    exists queues :: Holds(slots, head, tail, next, queues)
  }

  function After(path: seq<nat>, x: int, i: nat): int { if i + 1 < |path| then path[i + 1] else x }

  /** Following the links from `head` visits `path` and then arrives at `x`. */
  ghost predicate Arrives(head: int, next: seq<int>, path: seq<nat>, x: int) {
    && (forall i :: 0 <= i < |path| ==> path[i] < |next|)
    && head == (if path == [] then x else path[0])
    && (forall i :: 0 <= i < |path| ==> next[path[i]] == After(path, x, i))
  }

  lemma Longer(head: int, next: seq<int>, path: seq<nat>, x: nat)
    requires Arrives(head, next, path, x) && x < |next|
    ensures Arrives(head, next, path + [x], next[x])
  {
    var p := path + [x];
    forall i | 0 <= i < |p| ensures next[p[i]] == After(p, next[x], i) {
      if i < |path| { assert next[path[i]] == After(path, x, i); }
    }
  }

  /** There is only one way to follow the links. */
  lemma {:induction false} OnlyWay(head: int, next: seq<int>, path: seq<nat>, x: int, q: seq<nat>, k: nat)
    requires Arrives(head, next, path, x) && Linked(head, next, q) && k <= |path|
    ensures k <= |q| && path[..k] == q[..k]
    ensures (if k < |path| then path[k] else x) == (if k < |q| then q[k] else NULL)
  {
    if k > 0 {
      var j := k - 1;
      OnlyWay(head, next, path, x, q, j);
      assert path[j] == q[j];
      assert path[..k] == path[..j] + [path[j]] && q[..k] == q[..j] + [q[j]];
    }
  }

  lemma OneQueue(head: int, next: seq<int>, p: seq<nat>, q: seq<nat>)
    requires Linked(head, next, p) && Linked(head, next, q)
    ensures p == q
  {
    OnlyWay(head, next, p, NULL, q, |p|);
    OnlyWay(head, next, q, NULL, p, |q|);
  }

  /** The tests on the ends of queue `a`. */
  predicate EndsOk(head: int, tail: int, next: seq<int>)
    requires tail == NULL || 0 <= tail < |next|
  {
    (head == NULL <==> tail == NULL) && (tail != NULL ==> next[tail] == NULL)
  }

  lemma EndsForced(slots: seq<Slot>, head: seq<int>, tail: seq<int>, next: seq<int>, a: nat)
    requires |tail| == |head| == NR_SCHED_QUEUES && a < NR_SCHED_QUEUES && (tail[a] == NULL || 0 <= tail[a] < |next|)
    requires Sane(slots, head, tail, next)
    ensures EndsOk(head[a], tail[a], next)
  {
    var w :| Holds(slots, head, tail, next, w);
    assert Wired(head[a], tail[a], next, w[a]);
  }

  /** The tests on a process met on queue `a`. */
  predicate ElementOk(slots: seq<Slot>, tail: int, next: seq<int>, a: nat, x: int)
    requires |next| == |slots|
  {
    && 0 <= x < |slots| && slots[x].magic && slots[x].Runnable() && slots[x].priority == a
    && (next[x] == NULL ==> tail == x)
  }

  /** In a sane table every process met passes, and is met for the first time. */
  lemma ElementForced(slots: seq<Slot>, head: seq<int>, tail: seq<int>, next: seq<int>, a: nat, path: seq<nat>, x: int)
    requires Sane(slots, head, tail, next) && |tail| == |head| == NR_SCHED_QUEUES && |next| == |slots| && a < NR_SCHED_QUEUES
    requires Arrives(head[a], next, path, x) && x != NULL
    ensures ElementOk(slots, tail[a], next, a, x) && x !in path
  {
    var w :| Holds(slots, head, tail, next, w);
    var q := w[a];
    assert Wired(head[a], tail[a], next, q);
    OnlyWay(head[a], next, path, x, q, |path|);
    assert q[|path|] == x && x in q;
    assert path == q[..|path|];
  }

  /** `built` are the queues below `a`, as far as they have been checked. */
  ghost predicate Checked(slots: seq<Slot>, head: seq<int>, tail: seq<int>, next: seq<int>, a: nat, built: seq<seq<nat>>)
    requires |tail| == |head| == NR_SCHED_QUEUES && a <= NR_SCHED_QUEUES && |next| == |slots|
  {
    && |built| == a
    && forall b :: 0 <= b < a ==> Wired(head[b], tail[b], next, built[b]) && Homogeneous(slots, b, built[b])
  }

  lemma CheckedOn(slots: seq<Slot>, head: seq<int>, tail: seq<int>, next: seq<int>, a: nat, built: seq<seq<nat>>, q: seq<nat>)
    requires |tail| == |head| == NR_SCHED_QUEUES && a < NR_SCHED_QUEUES && |next| == |slots|
    requires Checked(slots, head, tail, next, a, built) && Wired(head[a], tail[a], next, q) && Homogeneous(slots, a, q)
    ensures Checked(slots, head, tail, next, a + 1, built + [q])
  {
  }

  /** Different runnable processes of priority `a`. */
  ghost predicate Homogeneous(slots: seq<Slot>, a: nat, q: seq<nat>) {
    NoDuplicates(q) && forall i :: 0 <= i < |q| ==> q[i] < |slots| && slots[q[i]].Runnable() && slots[q[i]].priority == a
  }

  ghost predicate Visited(built: seq<seq<nat>>, x: nat) {
    exists b :: 0 <= b < |built| && x in built[b]
  }

  /** After all queues: the table is sane exactly if all slots are sound and every runnable
      process has been met. */
  lemma Verdict(slots: seq<Slot>, head: seq<int>, tail: seq<int>, next: seq<int>, built: seq<seq<nat>>)
    requires |tail| == |head| == NR_SCHED_QUEUES && |next| == |slots|
    requires Checked(slots, head, tail, next, NR_SCHED_QUEUES, built)
    ensures Sane(slots, head, tail, next) <==>
      forall x :: 0 <= x < |slots| ==> slots[x].magic && (slots[x].Runnable() ==> Visited(built, x))
  {
    if forall x :: 0 <= x < |slots| ==> slots[x].magic && (slots[x].Runnable() ==> Visited(built, x)) {
      VerdictOk(slots, head, tail, next, built);
    }
    if Sane(slots, head, tail, next) {
      var w :| Holds(slots, head, tail, next, w);
      forall a | 0 <= a < NR_SCHED_QUEUES ensures w[a] == built[a] {
        assert Wired(head[a], tail[a], next, w[a]) && Wired(head[a], tail[a], next, built[a]);
        OneQueue(head[a], next, w[a], built[a]);
      }
      assert w == built;
      forall x | 0 <= x < |slots| && slots[x].Runnable() ensures Visited(built, x) {
        assert x in w[slots[x].priority];
      }
    }
  }

  lemma VerdictOk(slots: seq<Slot>, head: seq<int>, tail: seq<int>, next: seq<int>, built: seq<seq<nat>>)
    requires |tail| == |head| == NR_SCHED_QUEUES && |next| == |slots|
    requires Checked(slots, head, tail, next, NR_SCHED_QUEUES, built)
    requires forall x :: 0 <= x < |slots| ==> slots[x].magic && (slots[x].Runnable() ==> Visited(built, x))
    ensures Holds(slots, head, tail, next, built)
  {
    var s := Sched(slots, built, IDLE);
    forall a, x | 0 <= a < |built| ensures x in built[a] <==> s.Queued(x, a) {
      assert Homogeneous(slots, a, built[a]);
      if s.Queued(x, a) {
        var b :| 0 <= b < |built| && x in built[b];
        assert Homogeneous(slots, b, built[b]);
      }
    }
    forall x | 0 <= x < |slots| && slots[x].Runnable() ensures slots[x].priority < NR_SCHED_QUEUES {
      var b :| 0 <= b < |built| && x in built[b];
      assert Homogeneous(slots, b, built[b]);
    }
    forall a | 0 <= a < |built| ensures NoDuplicates(built[a]) { assert Homogeneous(slots, a, built[a]); }
  }

  lemma {:induction false} FewSlots(seen: set<nat>, n: nat)
    requires forall x :: x in seen ==> x < n
    ensures |seen| <= n
  {
    if n > 0 {
      FewSlots(seen - {n - 1}, n - 1);
      assert seen <= (seen - {n - 1}) + {n - 1};
    } else {
      assert seen == {};
    }
  }

  class Checker {
    const slot: array<Slot>
    const head: array<int>
    const tail: array<int>
    const next: array<int>
    const found: array<bool>     // p_found

    constructor (table: ReadyTable)
      ensures slot == table.slot && head == table.head && tail == table.tail && next == table.next
      ensures fresh(found) && found.Length == table.slot.Length
    {
      slot, head, tail, next := table.slot, table.head, table.tail, table.next;
      found := new bool[table.slot.Length];
    }

    /** The tails name slots: the checker follows them without a test. */
    ghost predicate Readable()
      reads tail
    {
      && head.Length == tail.Length == NR_SCHED_QUEUES && next.Length == found.Length == slot.Length
      && forall a :: 0 <= a < NR_SCHED_QUEUES ==> tail[a] == NULL || 0 <= tail[a] < slot.Length
    }

    ghost predicate Ok()
      reads slot, head, tail, next
    {
      Sane(slot[..], head[..], tail[..], next[..])
    }

    /** Exactly the processes of `built` and of `path` are marked, `l` in number. */
    ghost predicate Marked(built: seq<seq<nat>>, path: seq<nat>, seen: set<nat>, l: nat)
      reads found
    {
      && l == |seen|
      && (forall x :: x in seen ==> x < found.Length)
      && (forall x :: 0 <= x < found.Length ==> (found[x] <==> x in seen))
      && (forall x: nat :: x in seen <==> Visited(built, x) || x in path)
    }

    lemma Forced(a: nat, q: seq<nat>, x: int)
      requires Readable() && a < NR_SCHED_QUEUES && Arrives(head[a], next[..], q, x) && x != NULL
      ensures Ok() ==> ElementOk(slot[..], tail[a], next[..], a, x) && x !in q
    {
      if Ok() { ElementForced(slot[..], head[..], tail[..], next[..], a, q, x); }
    }

    /** The tests on one process, apart from those on its mark and its link. */
    method CheckElement(a: nat, x: int) returns (ok: bool)
      ensures ok <==> 0 <= x < slot.Length && slot[x].magic && slot[x].Runnable() && slot[x].priority == a
    {
      if x < 0 || x >= slot.Length { return false; }
      if !slot[x].magic { return false; }
      if SLOT_FREE in slot[x].flags { return false; }
      if !slot[x].Runnable() { return false; }
      return slot[x].priority == a;
    }

    /** The walk along queue `a` has met `q` and arrived at `x`. */
    ghost predicate Walking(a: nat, q: seq<nat>, x: int, built: seq<seq<nat>>, seen: set<nat>, l: nat)
      requires Readable() && a < NR_SCHED_QUEUES
      reads slot, head, tail, next, found
    {
      && Arrives(head[a], next[..], q, x) && Homogeneous(slot[..], a, q) && Marked(built, q, seen, l)
      && (q != [] && x == NULL ==> tail[a] == q[|q| - 1])
    }

    /** The end of a round, after the tests. */
    lemma Onward(a: nat, q: seq<nat>, x: nat)
      requires Readable() && a < NR_SCHED_QUEUES && x < slot.Length && slot[x].Runnable() && slot[x].priority == a
      requires Arrives(head[a], next[..], q, x) && Homogeneous(slot[..], a, q) && x !in q
      ensures Arrives(head[a], next[..], q + [x], next[x]) && Homogeneous(slot[..], a, q + [x])
    {
      AddedMembers(q, x);
      Longer(head[a], next[..], q, x);
    }

    /** One round of the walk: the process `x` is checked and marked. */
    method Visit(a: nat, x: int, l: nat, ghost built: seq<seq<nat>>, ghost q: seq<nat>, ghost seen: set<nat>)
      returns (ok: bool)
      requires Readable() && a < NR_SCHED_QUEUES && Walking(a, q, x, built, seen, l) && x != NULL
      requires Checked(slot[..], head[..], tail[..], next[..], a, built)
      modifies found
      ensures ok ==> 0 <= x < slot.Length && l < slot.Length && Walking(a, q + [x], next[x], built, seen + {x}, l + 1)
      ensures !ok ==> !Ok()
    {
      Forced(a, q, x);
      ok := CheckElement(a, x);
      if !ok { return; }
      if found[x] {
        MetBefore(built, q, x, a);
        return false;
      }
      found[x] := true;
      if next[x] == NULL && tail[a] != x { return false; }
      FewSlots(seen + {x}, slot.Length);
      Onward(a, q, x);
    }

    /** The walk along queue `a`. Neither a circle nor a shared element keeps it from ending, and
        the count `l` never passes the number of slots. */
    method CheckQueue(a: nat, l0: nat, ghost built: seq<seq<nat>>, ghost seen0: set<nat>)
      returns (ok: bool, l: nat, ghost q: seq<nat>, ghost seen: set<nat>)
      requires Readable() && a < NR_SCHED_QUEUES && Marked(built, [], seen0, l0)
      requires Checked(slot[..], head[..], tail[..], next[..], a, built) && EndsOk(head[a], tail[a], next[..])
      modifies found
      ensures ok ==> Wired(head[a], tail[a], next[..], q) && Homogeneous(slot[..], a, q) && Marked(built, q, seen, l)
      ensures !ok ==> !Ok()
    {
      l, q, seen := l0, [], seen0;
      var x := head[a];
      ok := true;
      while x != NULL
        invariant ok && Walking(a, q, x, built, seen, l)
        decreases slot.Length - l
      {
        ok := Visit(a, x, l, built, q, seen);
        if !ok { return; }
        q, seen := q + [x], seen + {x};
        if l > slot.Length { assert false; }
        l := l + 1;
        x := next[x];
      }
    }

    lemma NextQueue(built: seq<seq<nat>>, q: seq<nat>, seen: set<nat>, l: nat)
      requires Marked(built, q, seen, l)
      ensures Marked(built + [q], [], seen, l)
    {
      forall x: nat ensures Visited(built + [q], x) <==> Visited(built, x) || x in q {
        if Visited(built, x) {
          var b :| 0 <= b < |built| && x in built[b];
          assert x in (built + [q])[b];
        }
        if x in q { assert x in (built + [q])[|built|]; }
      }
    }

    /** The first loop of the checker. */
    method ClearMarks()
      requires Readable()
      modifies found
      ensures forall x :: 0 <= x < found.Length ==> !found[x]
    {
      var x, l := 0, 0;
      while x < found.Length
        invariant 0 <= x <= found.Length && l == x && forall y :: 0 <= y < x ==> !found[y]
      {
        found[x] := false;
        if l > slot.Length { assert false; }
        l := l + 1;
        x := x + 1;
      }
    }

    method CheckEnds(a: nat) returns (ok: bool)
      requires Readable() && a < NR_SCHED_QUEUES
      ensures ok <==> EndsOk(head[a], tail[a], next[..])
      ensures Ok() ==> ok
    {
      if Ok() { EndsForced(slot[..], head[..], tail[..], next[..], a); }
      if head[a] != NULL && tail[a] == NULL { return false; }
      if head[a] == NULL && tail[a] != NULL { return false; }
      if tail[a] != NULL && next[tail[a]] != NULL { return false; }
      return true;
    }

    ghost predicate Below(a: nat, built: seq<seq<nat>>, seen: set<nat>, l: nat)
      requires Readable()
      reads slot, head, tail, next, found
    {
      a <= NR_SCHED_QUEUES && Marked(built, [], seen, l) && Checked(slot[..], head[..], tail[..], next[..], a, built)
    }

    /** Queue `a`. */
    method CheckOne(a: nat, l0: nat, ghost built: seq<seq<nat>>, ghost seen0: set<nat>)
      returns (ok: bool, l: nat, ghost q: seq<nat>, ghost seen: set<nat>)
      requires Readable() && a < NR_SCHED_QUEUES && Below(a, built, seen0, l0)
      modifies found
      ensures ok ==> Below(a + 1, built + [q], seen, l)
      ensures !ok ==> !Ok()
    {
      l, q, seen := l0, [], seen0;
      ok := CheckEnds(a);
      if !ok { return; }
      ok, l, q, seen := CheckQueue(a, l, built, seen);
      if !ok { return; }
      NextQueue(built, q, seen, l);
      CheckedOn(slot[..], head[..], tail[..], next[..], a, built, q);
    }

    /** The loop over the queues. */
    method CheckQueues() returns (ok: bool, ghost built: seq<seq<nat>>, ghost seen: set<nat>)
      requires Readable() && forall x :: 0 <= x < found.Length ==> !found[x]
      modifies found
      ensures ok ==> Below(NR_SCHED_QUEUES, built, seen, |seen|)
      ensures !ok ==> !Ok()
    {
      built, seen, ok := [], {}, true;
      var a, l := 0, 0;
      while a < NR_SCHED_QUEUES
        invariant 0 <= a <= NR_SCHED_QUEUES && ok && Below(a, built, seen, l)
      {
        ghost var q;
        ok, l, q, seen := CheckOne(a, l, built, seen);
        if !ok { return; }
        built := built + [q];
        a := a + 1;
      }
    }

    /** The loop over the table. */
    method CheckTable() returns (ok: bool)
      requires Readable()
      ensures ok <==> forall x :: 0 <= x < slot.Length ==> slot[x].magic && (slot[x].Runnable() ==> found[x])
    {
      var x := 0;
      while x < slot.Length
        invariant 0 <= x <= slot.Length
        invariant forall y :: 0 <= y < x ==> slot[y].magic && (slot[y].Runnable() ==> found[y])
      {
        if !slot[x].magic { return false; }
        if SLOT_FREE !in slot[x].flags && slot[x].Runnable() && !found[x] { return false; }
        x := x + 1;
      }
      return true;
    }

    /** runqueues_ok_cpu: whatever the links, it ends, and its answer is yes exactly if the
        run-queue invariant holds. The two counters against endless loops never decide. */
    method RunQueuesOk() returns (ok: bool)
      requires Readable()
      modifies found
      ensures ok <==> Ok()
    {
      ClearMarks();
      ghost var built, seen;
      ok, built, seen := CheckQueues();
      if !ok { return; }
      Verdict(slot[..], head[..], tail[..], next[..], built);
      ok := CheckTable();
    }

    /** A marked process of priority `a` is on queue `a`. */
    lemma MetBefore(built: seq<seq<nat>>, q: seq<nat>, x: nat, a: nat)
      requires Readable() && a < NR_SCHED_QUEUES && x < slot.Length && slot[x].priority == a
      requires Checked(slot[..], head[..], tail[..], next[..], a, built)
      requires Visited(built, x) || x in q
      ensures x in q
    {
      forall b | 0 <= b < |built| ensures x !in built[b] { assert Homogeneous(slot[..], b, built[b]); }
    }
  }

  /** The tables of the run-queue operations pass: in every state they can reach, the checker says
      yes. */
  lemma TablePasses(table: ReadyTable)
    requires table.Valid() && Inv(table.Abs())
    requires forall x :: 0 <= x < table.slot.Length ==> table.slot[x].magic
    ensures Sane(table.slot[..], table.head[..], table.tail[..], table.next[..])
  {
    forall a | 0 <= a < NR_SCHED_QUEUES ensures Wired(table.head[a], table.tail[a], table.next[..], table.queues[a]) {
      assert table.WiredAt(a);
    }
    assert Holds(table.slot[..], table.head[..], table.tail[..], table.next[..], table.queues);
  }
}
