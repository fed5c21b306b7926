/** Queues of slot numbers, and the way the kernel links them: `head` names the first element
    and `link[x]` the successor of `x`. */
module Lists {

  ghost predicate NoDuplicates(q: seq<nat>) {
    forall i, j :: 0 <= i < j < |q| ==> q[i] != q[j]
  }

  /** No slot is on two queues. */
  ghost predicate Disjoint(queues: seq<seq<nat>>) {
    forall a, b, x :: 0 <= a < |queues| && 0 <= b < |queues| && x in queues[a] && x in queues[b] ==> a == b
  }

  /** `q` without the first `p`. */
  function Without(q: seq<nat>, p: nat): (r: seq<nat>)
    ensures forall x :: x in r ==> x in q
  {
    if q == [] then [] else if q[0] == p then q[1..] else [q[0]] + Without(q[1..], p)
  }

  lemma {:induction false} WithoutMembers(q: seq<nat>, p: nat)
    requires NoDuplicates(q)
    ensures NoDuplicates(Without(q, p))
    ensures forall x :: x in Without(q, p) <==> x in q && x != p
  {
    if q != [] {
      var rest := q[1..];
      assert q[0] !in rest;
      assert forall x :: x in q <==> x == q[0] || x in rest;
      if q[0] != p {
        WithoutMembers(rest, p);
      }
    }
  }

  lemma {:induction false} WithoutAbsent(q: seq<nat>, p: nat)
    requires p !in q
    ensures Without(q, p) == q
  {
    if q != [] { WithoutAbsent(q[1..], p); }
  }

  lemma AddedMembers(q: seq<nat>, p: nat)
    requires NoDuplicates(q) && p !in q
    ensures NoDuplicates(q + [p]) && NoDuplicates([p] + q)
    ensures forall x :: x in q + [p] <==> x in q || x == p
    ensures forall x :: x in [p] + q <==> x in q || x == p
  {
  }

  function Member(q: seq<nat>): (x: nat)
    requires q != []
    ensures x in q
  {
    q[0]
  }

  const NULL: int := -1

  /** What follows element `i` of `q`. */
  function Next(q: seq<nat>, i: nat): int
    requires i < |q|
  {
    if i + 1 < |q| then q[i + 1] else NULL
  }

  function First(q: seq<nat>): int { if q == [] then NULL else q[0] }

  /** Following the links from `head` visits the elements of `q`, in order, and ends. */
  ghost predicate Linked(head: int, link: seq<int>, q: seq<nat>) {
    && head == First(q)
    && (forall i :: 0 <= i < |q| ==> q[i] < |link|)
    && (forall i :: 0 <= i < |q| ==> link[q[i]] == Next(q, i))
  }

  lemma LinkedElsewhere(head: int, link: seq<int>, q: seq<nat>, p: nat, v: int)
    requires Linked(head, link, q) && p < |link| && p !in q
    ensures Linked(head, link[p := v], q)
  {
  }

  /** Appending at the end. */
  lemma LinkedAppend(head: int, link: seq<int>, q: seq<nat>, c: nat)
    requires Linked(head, link, q) && NoDuplicates(q) && c < |link| && c !in q && link[c] == NULL
    ensures q == [] ==> Linked(c, link, q + [c])
    ensures q != [] ==> Linked(head, link[q[|q| - 1] := c], q + [c])
  {
  }

  /** `q` without its element `i`. */
  function Cut(q: seq<nat>, i: nat): seq<nat>
    requires i < |q|
  {
    q[..i] + q[i + 1..]
  }

  lemma CutNext(q: seq<nat>, i: nat, j: nat)
    requires i < |q| && j < |q| - 1
    ensures Cut(q, i)[j] == (if j < i then q[j] else q[j + 1])
    ensures Next(Cut(q, i), j) == (if j + 1 == i then Next(q, i) else if j < i then Next(q, j) else Next(q, j + 1))
  {
  }

  /** Linking around element `i`. */
  lemma LinkedCut(head: int, link: seq<int>, q: seq<nat>, i: nat)
    requires Linked(head, link, q) && NoDuplicates(q) && i < |q|
    ensures i == 0 ==> Linked(link[q[0]], link, Cut(q, i))
    ensures i > 0 ==> Linked(head, link[q[i - 1] := link[q[i]]], Cut(q, i))
  {
    var r := Cut(q, i);
    forall j | 0 <= j < |r| ensures r[j] < |link| { CutNext(q, i, j); }
    forall j | 0 <= j < |r|
      ensures (if i > 0 then link[q[i - 1] := link[q[i]]] else link)[r[j]] == Next(r, j)
    {
      CutNext(q, i, j);
    }
  }

  lemma {:induction false} WithoutIsCut(q: seq<nat>, i: nat)
    requires i < |q| && NoDuplicates(q)
    ensures Without(q, q[i]) == Cut(q, i)
  {
    if i > 0 {
      WithoutIsCut(q[1..], i - 1);
    }
  }

  // ---------------------------------------------------------------- queues cut short

  /** `q` up to `h`, or all of it. */
  function UpTo(q: seq<nat>, h: nat): (r: seq<nat>)
    ensures r <= q && (h in r <==> h in q) && (h !in q ==> r == q) && (h in q ==> r != [] && r[|r| - 1] == h)
  {
    if q == [] then [] else if q[0] == h then [h] else [q[0]] + UpTo(q[1..], h)
  }

  /** Clearing the link of `h` ends the queue there. */
  lemma LinkedUpTo(head: int, link: seq<int>, q: seq<nat>, h: nat)
    requires Linked(head, link, q) && NoDuplicates(q) && h < |link|
    ensures Linked(head, link[h := NULL], UpTo(q, h))
  {
    var r := UpTo(q, h);
    forall i | 0 <= i < |r| ensures r[i] < |link| && link[h := NULL][r[i]] == Next(r, i) { assert r[i] == q[i]; }
  }

  // ---------------------------------------------------------------- order

  /** `x` stands before `y`. */
  predicate Before(q: seq<nat>, x: nat, y: nat) {
    q != [] && ((q[0] == x && y in q[1..]) || Before(q[1..], x, y))
  }

  lemma {:induction false} BeforeWithout(q: seq<nat>, p: nat, x: nat, y: nat)
    requires x != p && y != p
    ensures y in Without(q, p) <==> y in q
    ensures Before(Without(q, p), x, y) <==> Before(q, x, y)
  {
    if q != [] && q[0] != p {
      BeforeWithout(q[1..], p, x, y);
      assert ([q[0]] + Without(q[1..], p))[1..] == Without(q[1..], p);
    }
  }

  lemma {:induction false} BeforeAppend(q: seq<nat>, p: nat, x: nat, y: nat)
    ensures Before(q, x, y) ==> Before(q + [p], x, y)
    ensures x in q ==> Before(q + [p], x, p)
  {
    if q != [] {
      assert (q + [p])[1..] == q[1..] + [p];
      BeforeAppend(q[1..], p, x, y);
    }
  }

  lemma BeforePrepend(q: seq<nat>, p: nat, x: nat, y: nat)
    ensures Before(q, x, y) ==> Before([p] + q, x, y)
  {
    assert ([p] + q)[1..] == q;
  }

  lemma {:induction false} BeforeMembers(q: seq<nat>, x: nat, y: nat)
    requires Before(q, x, y)
    ensures x in q && y in q
  {
    if !(q[0] == x && y in q[1..]) { BeforeMembers(q[1..], x, y); }
  }
}
