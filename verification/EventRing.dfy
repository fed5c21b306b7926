/** Rings of events, doubly linked through ev_next and ev_prev. */
module EventRing {
  import opened Lists

  /** Consecutive elements of `p` are linked both ways. */
  ghost predicate Chain(next: seq<nat>, prev: seq<nat>, p: seq<nat>) {
    && |next| == |prev|
    && (forall i :: 0 <= i < |p| ==> p[i] < |next|)
    && (forall i, j :: 0 <= i < |p| && j == i + 1 && j < |p| ==> next[p[i]] == p[j] && prev[p[j]] == p[i])
  }

  /** `r` is a ring: a chain of different events whose ends are linked as well. */
  ghost predicate Ring(next: seq<nat>, prev: seq<nat>, r: seq<nat>) {
    && r != [] && NoDuplicates(r) && Chain(next, prev, r)
    && next[r[|r| - 1]] == r[0] && prev[r[0]] == r[|r| - 1]
  }

  /** Links of events other than those of `p` do not matter to `p`. */
  lemma ChainElsewhere(next: seq<nat>, prev: seq<nat>, next': seq<nat>, prev': seq<nat>, p: seq<nat>)
    requires Chain(next, prev, p) && |next'| == |next| && |prev'| == |prev|
    requires forall x :: x in p ==> x < |next| && next'[x] == next[x] && prev'[x] == prev[x]
    ensures Chain(next', prev', p)
  {
  }

  lemma RingElsewhere(next: seq<nat>, prev: seq<nat>, next': seq<nat>, prev': seq<nat>, r: seq<nat>)
    requires Ring(next, prev, r) && |next'| == |next| && |prev'| == |prev|
    requires forall x :: x in r ==> x < |next| && next'[x] == next[x] && prev'[x] == prev[x]
    ensures Ring(next', prev', r)
  {
    ChainElsewhere(next, prev, next', prev', r);
  }

  /** A ring determines the links of its events. */
  lemma SameLinks(next: seq<nat>, prev: seq<nat>, next': seq<nat>, prev': seq<nat>, r: seq<nat>, x: nat)
    requires Ring(next, prev, r) && Ring(next', prev', r) && x in r
    ensures x < |next| && x < |next'| && next[x] == next'[x] && prev[x] == prev'[x]
  {
    var i :| 0 <= i < |r| && r[i] == x;
    var j, h := i + 1, i - 1;
    if j < |r| { assert next[r[i]] == r[j] && next'[r[i]] == r[j]; }
    if h >= 0 { assert i == h + 1 && prev[r[i]] == r[h] && prev'[r[i]] == r[h]; }
  }

  /** The forward link of the last event and the backward link of the first are free. */
  lemma ChainEnds(next: seq<nat>, prev: seq<nat>, p: seq<nat>, v: nat, w: nat)
    requires Chain(next, prev, p) && p != [] && NoDuplicates(p)
    ensures Chain(next[p[|p| - 1] := v], prev[p[0] := w], p)
  {
  }

  lemma ChainJoin(next: seq<nat>, prev: seq<nat>, p: seq<nat>, q: seq<nat>)
    requires Chain(next, prev, p) && Chain(next, prev, q) && p != [] && q != []
    requires next[p[|p| - 1]] == q[0] && prev[q[0]] == p[|p| - 1]
    ensures Chain(next, prev, p + q)
  {
    var r := p + q;
    forall i, j | 0 <= i < |r| && j == i + 1 && j < |r| ensures next[r[i]] == r[j] && prev[r[j]] == r[i] {
      if j < |p| {
        assert r[i] == p[i] && r[j] == p[j];
      } else if i >= |p| {
        assert r[i] == q[i - |p|] && r[j] == q[j - |p|];
      }
    }
  }

  lemma ChainPart(next: seq<nat>, prev: seq<nat>, p: seq<nat>, k: nat)
    requires Chain(next, prev, p) && k <= |p|
    ensures Chain(next, prev, p[..k]) && Chain(next, prev, p[k..])
  {
    var q := p[k..];
    forall i, j | 0 <= i < |q| && j == i + 1 && j < |q| ensures next[q[i]] == q[j] && prev[q[j]] == q[i] {
      assert q[i] == p[k + i] && q[j] == p[k + j];
    }
  }

  /** A ring may be entered anywhere. */
  lemma Rotation(next: seq<nat>, prev: seq<nat>, r: seq<nat>, k: nat)
    requires Ring(next, prev, r) && k < |r|
    ensures Ring(next, prev, r[k..] + r[..k])
  {
    if k == 0 {
      assert r[k..] + r[..k] == r;
    } else {
      ChainPart(next, prev, r, k);
      ChainJoin(next, prev, r[k..], r[..k]);
    }
  }

  function Flatten(rings: seq<seq<nat>>): seq<nat> {
    if rings == [] then [] else rings[0] + Flatten(rings[1..])
  }

  lemma {:induction false} FlattenAppend(rings: seq<seq<nat>>, r: seq<nat>)
    ensures Flatten(rings + [r]) == Flatten(rings) + r
  {
    if rings == [] {
      assert rings + [r] == [r] && Flatten([r]) == r + Flatten([]);
    } else {
      assert (rings + [r])[1..] == rings[1..] + [r];
      FlattenAppend(rings[1..], r);
    }
  }

  lemma {:induction false} FlattenMember(rings: seq<seq<nat>>, x: nat)
    ensures x in Flatten(rings) <==> exists k :: 0 <= k < |rings| && x in rings[k]
  {
    if rings != [] {
      FlattenMember(rings[1..], x);
      if k :| 0 <= k < |rings| && x in rings[k] {
        if k > 0 { assert x in rings[1..][k - 1]; }
      }
      if k :| 0 <= k < |rings[1..]| && x in rings[1..][k] { assert x in rings[k + 1]; }
    }
  }

  lemma JoinDifferent(p: seq<nat>, q: seq<nat>)
    ensures NoDuplicates(p + q) <==> NoDuplicates(p) && NoDuplicates(q) && forall x :: x in p ==> x !in q
  {
    var r := p + q;
    if NoDuplicates(p) && NoDuplicates(q) && forall x :: x in p ==> x !in q {
      forall i, j | 0 <= i < j < |r| ensures r[i] != r[j] {
        if i < |p| <= j { assert r[i] == p[i] && p[i] in p && r[j] == q[j - |p|] && q[j - |p|] in q; }
      }
    }
    if NoDuplicates(r) {
      forall i, j | 0 <= i < j < |p| ensures p[i] != p[j] { assert r[i] != r[j]; }
      forall i, j | 0 <= i < j < |q| ensures q[i] != q[j] { assert r[|p| + i] != r[|p| + j]; }
      forall i, j | 0 <= i < |p| && 0 <= j < |q| ensures p[i] != q[j] { assert r[i] != r[|p| + j]; }
    }
  }

  /** Separate rings have no event in common. */
  lemma {:induction false} FlattenDifferent(rings: seq<seq<nat>>)
    requires Disjoint(rings) && forall k :: 0 <= k < |rings| ==> NoDuplicates(rings[k])
    ensures NoDuplicates(Flatten(rings))
  {
    if rings != [] {
      var rest := rings[1..];
      assert forall k :: 0 <= k < |rest| ==> rest[k] == rings[k + 1];
      FlattenDifferent(rest);
      forall x | x in rings[0] ensures x !in Flatten(rest) {
        FlattenMember(rest, x);
        forall k | 0 <= k < |rest| ensures x !in rest[k] { assert rest[k] == rings[k + 1]; }
      }
      JoinDifferent(rings[0], Flatten(rest));
    }
  }

  // ---------------------------------------------------------------- concatenation

  /** A ring being put together: `p` is linked up to its last event, the rings of `rest` are still to
      come, and `t` leads back to the start. */
  ghost predicate Open(next: seq<nat>, prev: seq<nat>, p: seq<nat>, rest: seq<seq<nat>>, t: seq<nat>) {
    && p != [] && Chain(next, prev, p) && Chain(next, prev, t) && NoDuplicates(p + Flatten(rest) + t)
    && (forall k :: 0 <= k < |rest| ==> Ring(next, prev, rest[k]))
    && (t != [] ==> next[t[|t| - 1]] == p[0] && prev[p[0]] == t[|t| - 1])
  }

  lemma ChainUpdate(next: seq<nat>, prev: seq<nat>, p: seq<nat>, a: nat, v: nat, b: nat, w: nat)
    requires Chain(next, prev, p) && a < |next| && b < |next|
    requires (forall i :: 0 <= i < |p| - 1 ==> p[i] != a) && (forall i :: 1 <= i < |p| ==> p[i] != b)
    ensures Chain(next[a := v], prev[b := w], p)
  {
  }

  lemma StartOpen(next: seq<nat>, prev: seq<nat>, r: seq<nat>, rings: seq<seq<nat>>)
    requires Ring(next, prev, r) && Disjoint([r] + rings) && forall k :: 0 <= k < |rings| ==> Ring(next, prev, rings[k])
    ensures Open(next, prev, [r[0]], rings, r[1..])
  {
    var all := [r] + rings;
    forall k | 0 <= k < |all| ensures NoDuplicates(all[k]) { if k > 0 { assert all[k] == rings[k - 1]; } }
    FlattenDifferent(all);
    assert all[1..] == rings && Flatten(all) == r + Flatten(rings);
    ChainPart(next, prev, r, 1);
    Turned(r[0], r[1..], Flatten(rings), r);
  }

  /** Moving the rest of a ring behind other events. */
  lemma Turned(h: nat, t: seq<nat>, f: seq<nat>, r: seq<nat>)
    requires r == [h] + t && NoDuplicates(r + f)
    ensures NoDuplicates([h] + f + t)
  {
    JoinDifferent(r, f);
    JoinDifferent([h], t);
    JoinDifferent([h], f);
    JoinDifferent([h] + f, t);
  }

  /** What is different from what, when a ring is attached. */
  lemma Parts(p: seq<nat>, q: seq<nat>, f: seq<nat>, t: seq<nat>, all: seq<nat>)
    requires all == p + (q + f) + t && NoDuplicates(all)
    ensures NoDuplicates(p) && NoDuplicates(q) && NoDuplicates(p + q) && p + q + f + t == all
    ensures forall x :: x in p ==> x !in q && x !in f && x !in t
    ensures forall x :: x in q ==> x !in f && x !in t
    ensures forall x :: x in p || x in q ==> x in all
  {
    JoinDifferent(p + (q + f), t);
    JoinDifferent(p, q + f);
    JoinDifferent(q, f);
    JoinDifferent(p, q);
    assert p + q + f + t == all;
  }

  lemma Attach(next: seq<nat>, prev: seq<nat>, p: seq<nat>, rest: seq<seq<nat>>, t: seq<nat>)
    requires Open(next, prev, p, rest, t) && rest != []
    ensures var q, c := rest[0], p[|p| - 1];
      q != [] && q[0] < |next| && prev[q[0]] == q[|q| - 1] && Open(next[c := q[0]], prev[q[0] := c], p + q, rest[1..], t)
  {
    var q, c := rest[0], p[|p| - 1];
    var f := Flatten(rest[1..]);
    var n, v := next[c := q[0]], prev[q[0] := c];
    Parts(p, q, f, t, p + Flatten(rest) + t);
    assert Ring(next, prev, q);
    assert c in p && c !in q && c !in f && c !in t && q[0] in q && q[0] !in p && q[0] !in f && q[0] !in t;
    ChainUpdate(next, prev, p, c, q[0], q[0], c);
    ChainUpdate(next, prev, q, c, q[0], q[0], c);
    ChainUpdate(next, prev, t, c, q[0], q[0], c);
    ChainJoin(n, v, p, q);
    forall k | 0 <= k < |rest[1..]| ensures Ring(n, v, rest[1..][k]) {
      assert rest[1..][k] == rest[k + 1];
      forall x | x in rest[k + 1] ensures x in f { FlattenMember(rest[1..], x); }
      RingElsewhere(next, prev, n, v, rest[k + 1]);
    }
  }

  lemma Close(next: seq<nat>, prev: seq<nat>, p: seq<nat>, t: seq<nat>)
    requires Open(next, prev, p, [], t)
    ensures var l, c := if t == [] then p[0] else t[0], p[|p| - 1]; Ring(next[c := l], prev[l := c], p + t)
  {
    var l, c := if t == [] then p[0] else t[0], p[|p| - 1];
    var n, v := next[c := l], prev[l := c];
    assert p + Flatten([]) + t == p + t;
    JoinDifferent(p, t);
    assert c in p && c !in t && (t != [] ==> l in t && l !in p);
    ChainUpdate(next, prev, p, c, l, l, c);
    ChainUpdate(next, prev, t, c, l, l, c);
    if t == [] { assert p + t == p; } else { ChainJoin(n, v, p, t); }
  }

  // ---------------------------------------------------------------- isolation

  /** The links after `e` is taken out of its ring. */
  ghost predicate Isolated(next: seq<nat>, prev: seq<nat>, next': seq<nat>, prev': seq<nat>, e: nat)
    requires e < |next| == |prev|
  {
    var n, p := next[e], prev[e];
    && n < |next| && p < |next|
    && next' == next[p := n][e := e] && prev' == prev[n := p][e := e]
  }

  lemma IsolateRings(next: seq<nat>, prev: seq<nat>, next': seq<nat>, prev': seq<nat>, r: seq<nat>)
    requires Ring(next, prev, r) && |r| > 1 && Isolated(next, prev, next', prev', r[0])
    ensures Ring(next', prev', [r[0]]) && Ring(next', prev', r[1..])
  {
    var e, q := r[0], r[1..];
    assert next[e] == q[0] && prev[e] == q[|q| - 1];
    ChainPart(next, prev, r, 1);
    ChainEnds(next, prev, q, q[0], q[|q| - 1]);
    ChainElsewhere(next[q[|q| - 1] := q[0]], prev[q[0] := q[|q| - 1]], next', prev', q);
  }

  /** Chaining a single event `e` before the first event of `r`. */
  ghost predicate Chained(next: seq<nat>, prev: seq<nat>, next': seq<nat>, prev': seq<nat>, e: nat, c: nat)
    requires e < |next| == |prev| && c < |next|
  {
    var p := prev[c];
    && p < |next|
    && next' == next[e := c][p := e] && prev' == prev[e := p][c := e]
  }

  lemma ChainedRing(next: seq<nat>, prev: seq<nat>, next': seq<nat>, prev': seq<nat>, e: nat, r: seq<nat>)
    requires Ring(next, prev, r) && e < |next| && e !in r && Chained(next, prev, next', prev', e, r[0])
    ensures Ring(next', prev', r + [e])
  {
    var last := r[|r| - 1];
    ChainEnds(next, prev, r, e, e);
    ChainElsewhere(next[last := e], prev[r[0] := e], next', prev', r);
    assert Chain(next', prev', [e]);
    ChainJoin(next', prev', r, [e]);
    AddedMembers(r, e);
  }

  /** Isolating an event that was chained to a ring gives back the links of the ring. */
  lemma ChainedThenIsolated(next: seq<nat>, prev: seq<nat>, next1: seq<nat>, prev1: seq<nat>, next2: seq<nat>, prev2: seq<nat>,
                            e: nat, r: seq<nat>)
    requires Ring(next, prev, r) && Ring(next, prev, [e]) && e !in r
    requires Chained(next, prev, next1, prev1, e, r[0]) && Isolated(next1, prev1, next2, prev2, e)
    ensures next2 == next && prev2 == prev
  {
  }

  // ---------------------------------------------------------------- counting

  datatype Status = PENDING | OCCURRED | FAILED

  /** How many events of `r` are no longer pending. */
  function NonPending(status: seq<Status>, r: seq<nat>): nat
    requires forall i :: 0 <= i < |r| ==> r[i] < |status|
  {
    if r == [] then 0
    else NonPending(status, r[..|r| - 1]) + if status[r[|r| - 1]] != PENDING then 1 else 0
  }

  ghost function Happened(status: seq<Status>, r: seq<nat>): set<nat> {
    set x | x in r && x < |status| && status[x] != PENDING
  }

  lemma HappenedAppend(status: seq<Status>, q: seq<nat>, x: nat)
    requires x < |status|
    ensures Happened(status, q + [x]) == if status[x] != PENDING then Happened(status, q) + {x} else Happened(status, q)
  {
  }

  /** The count is that of the set of non-pending events, each counted once. */
  lemma {:induction false} NonPendingIsCardinality(status: seq<Status>, r: seq<nat>)
    requires NoDuplicates(r) && forall i :: 0 <= i < |r| ==> r[i] < |status|
    ensures NonPending(status, r) == |Happened(status, r)|
  {
    if r == [] {
      assert Happened(status, r) == {};
    } else {
      var q, x := r[..|r| - 1], r[|r| - 1];
      NonPendingIsCardinality(status, q);
      assert x !in q;
      HappenedAppend(status, q, x);
      assert r == q + [x];
    }
  }
}
