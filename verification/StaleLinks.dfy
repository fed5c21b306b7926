/** Links that a queue has left behind: slots that are on no queue but still name a successor. */
module StaleLinks {
  import opened Lists

  predicate Nowhere(queues: seq<seq<nat>>, y: nat) {
    forall b :: 0 <= b < |queues| ==> y !in queues[b]
  }

  /** The slots on no queue whose link is not clear. */
  ghost function StaleSet(queues: seq<seq<nat>>, link: seq<int>): set<nat> {
    set y: nat | y < |link| && link[y] != NULL && Nowhere(queues, y)
  }

  lemma ChangedQueue(queues: seq<seq<nat>>, d: nat, q: seq<nat>, y: nat)
    requires d < |queues|
    ensures Nowhere(queues[d := q], y) <==> y !in q && forall b :: 0 <= b < |queues| && b != d ==> y !in queues[b]
  {
    if Nowhere(queues[d := q], y) {
      assert queues[d := q][d] == q;
      forall b | 0 <= b < |queues| && b != d ensures y !in queues[b] { assert queues[d := q][b] == queues[b]; }
    }
  }

  /** Appending a slot with a clear link, after `prev` if the queue has a last element. */
  lemma StaleAppend(queues: seq<seq<nat>>, link: seq<int>, d: nat, c: nat, prev: int)
    requires d < |queues| && c < |link| && link[c] == NULL
    requires prev == NULL || (0 <= prev < |link| && prev in queues[d])
    ensures StaleSet(queues[d := queues[d] + [c]], if prev == NULL then link else link[prev := c]) == StaleSet(queues, link)
  {
    var q := queues[d] + [c];
    forall y: nat ensures Nowhere(queues[d := q], y) <==> Nowhere(queues, y) && y != c {
      ChangedQueue(queues, d, q, y);
      ChangedQueue(queues, d, queues[d], y);
      assert queues[d := queues[d]] == queues;
    }
    if prev != NULL { assert !Nowhere(queues, prev); }
  }

  /** Linking around `x`, after `prev` if `x` is not the first element. */
  lemma StaleCut(queues: seq<seq<nat>>, link: seq<int>, d: nat, x: nat, prev: int, v: int)
    requires d < |queues| && x < |link| && x in queues[d] && Disjoint(queues) && NoDuplicates(queues[d])
    requires prev == NULL || (0 <= prev < |link| && prev in queues[d] && prev != x)
    ensures StaleSet(queues[d := Without(queues[d], x)], if prev == NULL then link else link[prev := v]) ==
      StaleSet(queues, link) + if link[x] != NULL then {x} else {}
  {
    WithoutMembers(queues[d], x);
    var q := Without(queues[d], x);
    forall y: nat ensures Nowhere(queues[d := q], y) <==> Nowhere(queues, y) || y == x {
      ChangedQueue(queues, d, q, y);
      ChangedQueue(queues, d, queues[d], y);
      assert queues[d := queues[d]] == queues;
    }
    if prev != NULL { assert !Nowhere(queues, prev); }
  }

  lemma StaleReset(queues: seq<seq<nat>>, link: seq<int>, x: nat)
    requires x < |link|
    ensures StaleSet(queues, link[x := NULL]) == StaleSet(queues, link) - {x}
  {
  }

  // ---------------------------------------------------------------- taking elements off in slot order

  /** The elements of `q` from slot `i` on, in order. */
  function From(q: seq<nat>, i: nat): (r: seq<nat>)
    ensures forall x :: x in r <==> x in q && x >= i
  {
    if q == [] then [] else if q[0] >= i then [q[0]] + From(q[1..], i) else From(q[1..], i)
  }

  lemma {:induction false} FromAll(q: seq<nat>)
    ensures From(q, 0) == q
  {
    if q != [] { FromAll(q[1..]); }
  }

  /** Taking off slot `i` leaves the elements from `i + 1` on. */
  lemma {:induction false} FromNext(q: seq<nat>, i: nat)
    requires NoDuplicates(q)
    ensures From(q, i + 1) == Without(From(q, i), i)
  {
    if q != [] {
      assert q[0] !in q[1..];
      FromNext(q[1..], i);
      if q[0] == i {
        WithoutAbsent(From(q[1..], i), i);
        assert From(q, i)[1..] == From(q[1..], i);
      } else if q[0] > i {
        assert From(q, i)[1..] == From(q[1..], i);
      }
    }
  }

  /** A higher slot stands behind `p` on `q`. */
  ghost predicate HigherBehind(q: seq<nat>, p: nat) {
    exists z :: z > p && Before(q, p, z)
  }

  /** The slots below `n` with a higher slot behind. */
  ghost function Exposed(q: seq<nat>, n: nat): set<nat> {
    set y: nat | y < n && HigherBehind(q, y)
  }

  lemma ExposedNext(q: seq<nat>, i: nat)
    ensures Exposed(q, i + 1) == Exposed(q, i) + if HigherBehind(q, i) then {i} else {}
  {
  }

  lemma HigherIsMember(q: seq<nat>, y: nat)
    requires HigherBehind(q, y)
    ensures y in q
  {
    var z: nat :| z > y && Before(q, y, z);
    BeforeMembers(q, y, z);
  }

  predicate LastIs(q: seq<nat>, p: nat) { q != [] && q[|q| - 1] == p }

  lemma {:induction false} FromKeepsOrder(q: seq<nat>, i: nat, x: nat, y: nat)
    requires x >= i && y >= i
    ensures Before(From(q, i), x, y) <==> Before(q, x, y)
  {
    if q != [] {
      FromKeepsOrder(q[1..], i, x, y);
      if q[0] >= i { assert From(q, i)[1..] == From(q[1..], i); }
    }
  }

  /** Nothing stands behind the last element. */
  lemma {:induction false} NoneBehindLast(q: seq<nat>, p: nat, z: nat)
    requires NoDuplicates(q) && Before(q, p, z)
    ensures !LastIs(q, p)
  {
    assert q[0] !in q[1..];
    if q[0] == p && z in q[1..] { assert q[|q| - 1] in q[1..]; } else { NoneBehindLast(q[1..], p, z); }
  }

  /** Something stands behind every other. */
  lemma {:induction false} SomeBehind(q: seq<nat>, p: nat) returns (z: nat)
    requires p in q && !LastIs(q, p)
    ensures Before(q, p, z)
  {
    if q[0] == p {
      z := q[|q| - 1];
      assert q[1..][|q| - 2] == z;
    } else {
      z := SomeBehind(q[1..], p);
    }
  }

  /** When the elements are taken off in slot order, `p` is last on its turn exactly if no higher slot
      stood behind it. */
  lemma LastOnTurn(q: seq<nat>, p: nat)
    requires NoDuplicates(q) && p in q && NoDuplicates(From(q, p))
    ensures LastIs(From(q, p), p) <==> !HigherBehind(q, p)
  {
    var r := From(q, p);
    if !LastIs(r, p) {
      var z := SomeBehind(r, p);
      BeforeMembers(r, p, z);
      NotBeforeItself(r, p, z);
      FromKeepsOrder(q, p, p, z);
      assert z > p && Before(q, p, z);
    }
    if z: nat :| z > p && Before(q, p, z) {
      FromKeepsOrder(q, p, p, z);
      NoneBehindLast(r, p, z);
    }
  }

  lemma {:induction false} NotBeforeItself(q: seq<nat>, x: nat, y: nat)
    requires NoDuplicates(q) && Before(q, x, y)
    ensures x != y
  {
    assert q[0] !in q[1..];
    if !(q[0] == x && y in q[1..]) { NotBeforeItself(q[1..], x, y); }
  }
}
