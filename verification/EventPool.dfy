/** The event structures and the functions that rewrite their links and states. */
module EventPool {
  import opened Lists
  import opened EventRing

  datatype Direction = WALK_NEXT | WALK_PREV | WALK_NOWHERE

  datatype Code = OK | EINVAL

  class Pool {
    const next: array<nat>
    const prev: array<nat>
    const status: array<Status>
    const live: array<bool>        // allocated and not yet freed

    constructor (n: nat)
      ensures Valid() && next.Length == n && (forall x :: 0 <= x < n ==> !live[x])
      ensures fresh(next) && fresh(prev) && fresh(status) && fresh(live)
    {
      next := new nat[n](_ => 0);
      prev := new nat[n](_ => 0);
      status := new Status[n](_ => PENDING);
      live := new bool[n](_ => false);
    }

    ghost predicate Valid() {
      next.Length == prev.Length == status.Length == live.Length && next != prev
    }

    /** `r` is a ring of live events. */
    ghost predicate IsRing(r: seq<nat>)
      requires Valid()
      reads next, prev, live
    {
      Ring(next[..], prev[..], r) && forall i :: 0 <= i < |r| ==> live[r[i]]
    }

    /** The links of all events outside `r` are as they were. */
    twostate predicate Untouched(r: seq<nat>)
      requires Valid()
      reads next, prev
    {
      forall x :: 0 <= x < next.Length && x !in r ==> next[x] == old(next[x]) && prev[x] == old(prev[x])
    }

    /** pth_event without PTH_MODE_CHAIN, for an event structure `e` just allocated. */
    method Single(e: nat)
      requires Valid() && e < next.Length
      modifies next, prev, status, live
      ensures IsRing([e]) && status[e] == PENDING && Untouched([e])
      ensures forall x :: 0 <= x < live.Length && x != e ==> live[x] == old(live[x]) && status[x] == old(status[x])
    {
      live[e] := true;
      prev[e] := e;
      next[e] := e;
      status[e] := PENDING;
    }

    /** pth_event with PTH_MODE_CHAIN: `e` is put before `c`, the first event of the ring `r`. */
    method ChainTo(e: nat, c: nat, ghost r: seq<nat>)
      requires Valid() && e < next.Length && IsRing(r) && c == r[0] && e !in r
      modifies next, prev, status, live
      ensures IsRing(r + [e]) && status[e] == PENDING && Untouched(r + [e])
      ensures Chained(old(next[..]), old(prev[..]), next[..], prev[..], e, c)
      ensures forall x :: 0 <= x < live.Length && x != e ==> live[x] == old(live[x]) && status[x] == old(status[x])
    {
      ghost var n0, p0 := next[..], prev[..];
      live[e] := true;
      prev[e] := prev[c];
      next[e] := c;
      next[prev[e]] := e;
      prev[next[e]] := e;
      status[e] := PENDING;
      assert Chained(n0, p0, next[..], prev[..], e, c);
      ChainedRing(n0, p0, next[..], prev[..], e, r);
    }

    /** pth_event_isolate. The rest of the ring starts with the event returned. */
    method Isolate(e: int, ghost r: seq<nat>) returns (ring: int, code: Code)
      requires Valid() && (e != NULL ==> IsRing(r) && e == r[0])
      modifies next, prev
      ensures e == NULL ==> code == EINVAL && ring == NULL && next[..] == old(next[..]) && prev[..] == old(prev[..])
      ensures e != NULL ==> code == OK && IsRing([e]) && Untouched(r)
      ensures e != NULL && |r| == 1 ==> ring == NULL && next[..] == old(next[..]) && prev[..] == old(prev[..])
      ensures e != NULL && |r| > 1 ==>
        IsRing(r[1..]) && ring == r[1] && Isolated(old(next[..]), old(prev[..]), next[..], prev[..], e)
    {
      if e == NULL { return NULL, EINVAL; }
      ring, code := NULL, OK;
      ghost var n0, p0 := next[..], prev[..];
      Ends(r);
      if !(next[e] == e && prev[e] == e) {
        ring := next[e];
        next[prev[e]] := next[e];
        prev[next[e]] := prev[e];
        prev[e] := e;
        next[e] := e;
        assert Isolated(n0, p0, next[..], prev[..], e);
        IsolateRings(n0, p0, next[..], prev[..], r);
      }
    }

    lemma Ends(r: seq<nat>)
      requires Valid() && IsRing(r)
      ensures next[r[0]] == (if |r| > 1 then r[1] else r[0]) && prev[r[0]] == r[|r| - 1]
      ensures |r| > 1 ==> r[1] != r[0]
    {
    }

    /** pth_event_concat: the first event, then the rings that start with `more`, one after the
        other, then the rest of the first ring. */
    method Concat(e: int, more: seq<nat>, ghost r: seq<nat>, ghost rings: seq<seq<nat>>) returns (code: Code)
      requires Valid() && |more| == |rings| && (e != NULL ==> IsRing(r) && e == r[0])
      requires forall k :: 0 <= k < |rings| ==> IsRing(rings[k]) && more[k] == rings[k][0]
      requires e != NULL ==> Disjoint([r] + rings)
      modifies next, prev
      ensures e == NULL ==> code == EINVAL && next[..] == old(next[..]) && prev[..] == old(prev[..])
      ensures e != NULL ==> code == OK && IsRing([r[0]] + Flatten(rings) + r[1..]) && Untouched([r[0]] + Flatten(rings) + r[1..])
    {
      if e == NULL { return EINVAL; }
      StartOpen(next[..], prev[..], r, rings);
      AllLive([r[0]] + Flatten(rings) + r[1..], r, rings);
      JoinRings(e, more, r, rings, [r[0]] + Flatten(rings) + r[1..]);
      code := OK;
    }

    /** The work of pth_event_concat. */
    method JoinRings(e: nat, more: seq<nat>, ghost r: seq<nat>, ghost rings: seq<seq<nat>>, ghost all: seq<nat>)
      requires Valid() && |more| == |rings| && r != [] && e == r[0] && e < next.Length
      requires forall k :: 0 <= k < |rings| ==> rings[k] != [] && more[k] == rings[k][0]
      requires Open(next[..], prev[..], [r[0]], rings, r[1..]) && next[e] == if |r| > 1 then r[1] else r[0]
      requires all == [r[0]] + Flatten(rings) + r[1..]
      modifies next, prev
      ensures Ring(next[..], prev[..], all) && Untouched(all)
    {
      var c, l := e, next[e];
      ghost var p := [r[0]];
      var k := 0;
      assert rings[0..] == rings;
      while k < |more|
        invariant 0 <= k <= |more| && p != [] && c == p[|p| - 1] && p[0] == r[0]
        invariant Open(next[..], prev[..], p, rings[k..], r[1..]) && p + Flatten(rings[k..]) + r[1..] == all && Untouched(all)
      {
        c, p := AttachRing(c, more[k], p, rings[k], rings[k..], r[1..], all);
        assert rings[k..][1..] == rings[k + 1..];
        k := k + 1;
      }
      assert rings[k..] == [];
      CloseRing(c, l, p, r[1..], all);
    }

    method CloseRing(c: nat, l: nat, ghost p: seq<nat>, ghost t: seq<nat>, ghost all: seq<nat>)
      requires Valid() && Open(next[..], prev[..], p, [], t) && c == p[|p| - 1] && l == (if t == [] then p[0] else t[0])
      requires all == p + Flatten([]) + t
      modifies next, prev
      ensures Ring(next[..], prev[..], all) && Untouched(all)
    {
      assert p + t == all;
      Close(next[..], prev[..], p, t);
      assert c in p && (l in p || l in t);
      next[c] := l;
      prev[l] := c;
    }

    lemma AllLive(all: seq<nat>, r: seq<nat>, rings: seq<seq<nat>>)
      requires Valid() && r != [] && all == [r[0]] + Flatten(rings) + r[1..]
      requires forall i :: 0 <= i < |r| ==> r[i] < live.Length && live[r[i]]
      requires forall k, i :: 0 <= k < |rings| && 0 <= i < |rings[k]| ==> rings[k][i] < live.Length && live[rings[k][i]]
      ensures forall i :: 0 <= i < |all| ==> all[i] < live.Length && live[all[i]]
    {
      forall x | x in all ensures x < live.Length && live[x] {
        FlattenMember(rings, x);
      }
      forall i | 0 <= i < |all| ensures all[i] < live.Length && live[all[i]] { assert all[i] in all; }
    }

    /** One round of the loop of pth_event_concat: the ring `q`, which starts with `n`, is attached
        to `c`, the last event so far. */
    method AttachRing(c: nat, n: nat, ghost p: seq<nat>, ghost q: seq<nat>, ghost rest: seq<seq<nat>>,
                      ghost t: seq<nat>, ghost all: seq<nat>)
      returns (c': nat, ghost p': seq<nat>)
      requires Valid() && Open(next[..], prev[..], p, rest, t) && rest != [] && rest[0] == q && q != [] && q[0] == n
      requires c == p[|p| - 1] && all == p + Flatten(rest) + t
      modifies next, prev
      ensures p' == p + q && c' == p'[|p'| - 1] && Open(next[..], prev[..], p', rest[1..], t)
      ensures p' + Flatten(rest[1..]) + t == all && Untouched(all)
    {
      Attach(next[..], prev[..], p, rest, t);
      Parts(p, q, Flatten(rest[1..]), t, all);
      assert c in p && n in q;
      c', p' := prev[n], p + q;
      next[c] := n;
      prev[n] := c;
    }

    /** How a library call waits with the caller's ring besides its own single event: it attaches the
        ring and isolates its event again. The caller's ring comes back link by link. */
    method AttachAndIsolate(e: nat, extra: nat, ghost r: seq<nat>)
      requires Valid() && IsRing([e]) && IsRing(r) && extra == r[0] && e !in r
      modifies next, prev
      ensures next[..] == old(next[..]) && prev[..] == old(prev[..])
    {
      ghost var n0, p0, all := next[..], prev[..], [e] + r;
      ghost var rings := [r];
      assert Flatten(rings) == r && [e] + Flatten(rings) + [e][1..] == all;
      var _ := Concat(e, [extra], [e], rings);
      var _, _ := Isolate(e, all);
      assert all[1..] == r;
      forall x | 0 <= x < next.Length ensures next[x] == n0[x] && prev[x] == p0[x] {
        if x == e {
          assert x in [e];
          SameLinks(n0, p0, next[..], prev[..], [e], x);
        } else if x in r {
          SameLinks(n0, p0, next[..], prev[..], r, x);
        } else {
          assert x !in all;
        }
      }
    }

    /** Chaining a single event to a ring and isolating it again restores every link; the ring is entered at
        the event first. */
    method ChainAndIsolate(e: nat, c: nat, ghost r: seq<nat>)
      requires Valid() && IsRing(r) && IsRing([e]) && c == r[0] && e !in r
      modifies next, prev, status, live
      ensures next[..] == old(next[..]) && prev[..] == old(prev[..])
    {
      ghost var n0, p0, k := next[..], prev[..], |r|;
      ChainTo(e, c, r);
      ghost var n1, p1, around := next[..], prev[..], r + [e];
      Rotation(n1, p1, around, k);
      assert around[k..] == [e] && around[..k] == r;
      var _, _ := Isolate(e, [e] + r);
      ChainedThenIsolated(n0, p0, n1, p1, next[..], prev[..], e, r);
    }

    /** pth_event_walk: one event on, or on to the next that occurred. */
    method Walk(e: int, dir: Direction, untilOccurred: bool, ghost r: seq<nat>) returns (x: int, code: Code, ghost k: nat)
      requires Valid() && (e != NULL ==> IsRing(r) && e == r[0])
      requires e != NULL && dir != WALK_NOWHERE && untilOccurred ==> exists i :: 0 <= i < |r| && status[r[i]] == OCCURRED
      ensures code == EINVAL <==> e == NULL || dir == WALK_NOWHERE
      ensures code == OK ==> 1 <= k <= |r| && x == Nth(r, dir, k)
      ensures code == OK && !untilOccurred ==> k == 1
      ensures code == OK && untilOccurred ==>
        status[Nth(r, dir, k)] == OCCURRED && forall j :: 1 <= j < k ==> status[Nth(r, dir, j)] != OCCURRED
    {
      k := 1;
      if e == NULL || dir == WALK_NOWHERE { return NULL, EINVAL, k; }
      code := OK;
      var y: nat := e;
      y := if dir == WALK_NEXT then next[y] else prev[y];
      while untilOccurred && status[y] != OCCURRED
        invariant 1 <= k <= |r| && y == Nth(r, dir, k) && (!untilOccurred ==> k == 1)
        invariant forall j :: 1 <= j < k ==> status[Nth(r, dir, j)] != OCCURRED
        decreases |r| - k
      {
        if k == |r| { Around(status[..], r, dir); }
        y := if dir == WALK_NEXT then next[y] else prev[y];
        k := k + 1;
      }
      x := y;
    }

    /** The loop of pth_wait that makes every event of the ring pending again. */
    method MarkPending(e: nat, ghost r: seq<nat>)
      requires Valid() && IsRing(r) && e == r[0]
      modifies status
      ensures forall x :: 0 <= x < status.Length ==> status[x] == if x in r then PENDING else old(status[x])
    {
      ghost var i := 1;
      status[e] := PENDING;
      var x := next[e];
      while x != e
        invariant 1 <= i <= |r| && x == Following(r, i)
        invariant forall y :: 0 <= y < status.Length ==> status[y] == if y in r[..i] then PENDING else old(status[y])
        decreases |r| - i
      {
        status[x] := PENDING;
        x := next[x];
        i := i + 1;
      }
      assert r[..i] == r;
    }

    /** The loop of pth_wait that counts the events that occurred or failed. */
    method CountNonPending(e: nat, ghost r: seq<nat>) returns (n: nat)
      requires Valid() && IsRing(r) && e == r[0]
      ensures n == |Happened(status[..], r)|
    {
      ghost var i := 0;
      n := 0;
      var x := e;
      while true
        invariant 0 <= i < |r| && x == r[i] && n == NonPending(status[..], r[..i])
        decreases |r| - i
      {
        assert r[..i + 1][..i] == r[..i];
        if status[x] != PENDING { n := n + 1; }
        x := next[x];
        i := i + 1;
        assert i < |r| ==> r[i] != r[0];
        if x == e { break; }
      }
      assert r[..i] == r;
      NonPendingIsCardinality(status[..], r);
    }

    /** pth_event_free with PTH_FREE_ALL: every event of the ring is freed, once, and none is used
        after that. */
    method FreeAll(e: nat, ghost r: seq<nat>) returns (freed: seq<nat>)
      requires Valid() && IsRing(r) && e == r[0]
      modifies live
      ensures freed == r
      ensures forall x :: 0 <= x < live.Length ==> live[x] == (old(live[x]) && x !in r)
    {
      freed := [];
      ghost var i := 0;
      var x := e;
      while true
        invariant 0 <= i < |r| && x == r[i] && freed == r[..i]
        invariant forall y :: 0 <= y < live.Length ==> live[y] == (old(live[y]) && y !in r[..i])
        decreases |r| - i
      {
        assert live[x];
        var n := next[x];
        live[x] := false;
        freed := freed + [x];
        x := n;
        i := i + 1;
        assert i < |r| ==> r[i] != r[0];
        if x == e { break; }
      }
      assert r[..i] == r;
    }

    /** pth_event_free with PTH_FREE_THIS: the rest of the ring stays a ring. */
    method FreeThis(e: nat, ghost r: seq<nat>)
      requires Valid() && IsRing(r) && e == r[0]
      modifies next, prev, live
      ensures |r| > 1 ==> IsRing(r[1..])
      ensures Untouched(r)
      ensures forall x :: 0 <= x < live.Length ==> live[x] == (old(live[x]) && x != e)
    {
      ghost var n0, p0 := next[..], prev[..];
      Ends(r);
      next[prev[e]] := next[e];
      prev[next[e]] := prev[e];
      live[e] := false;
      if |r| > 1 {
        assert r[1..][|r| - 2] == r[|r| - 1] && r[1..][0] == r[1];
        ChainPart(n0, p0, r, 1);
        ChainEnds(n0, p0, r[1..], r[1], r[|r| - 1]);
        assert next[..] == n0[r[|r| - 1] := r[1]] && prev[..] == p0[r[1] := r[|r| - 1]];
      }
    }
  }

  /** Where the walk around `r` is after `i` events. */
  ghost function Following(r: seq<nat>, i: nat): nat
    requires 1 <= i <= |r|
  {
    if i < |r| then r[i] else r[0]
  }

  /** The event `k` steps from the first. */
  ghost function Nth(r: seq<nat>, dir: Direction, k: nat): nat
    requires 1 <= k <= |r|
  {
    if dir == WALK_PREV then r[|r| - k] else Following(r, k)
  }

  /** A full turn meets every event. */
  lemma Around(status: seq<Status>, r: seq<nat>, dir: Direction)
    requires forall i :: 0 <= i < |r| ==> r[i] < |status|
    requires exists i :: 0 <= i < |r| && status[r[i]] == OCCURRED
    ensures exists k :: 1 <= k <= |r| && status[Nth(r, dir, k)] == OCCURRED
  {
    var i :| 0 <= i < |r| && status[r[i]] == OCCURRED;
    var k := if dir == WALK_PREV then |r| - i else if i == 0 then |r| else i;
    assert Nth(r, dir, k) == r[i];
  }

  /** Where `k` steps along the links lead. */
  function Go(link: seq<nat>, e: nat, k: nat): nat {
    if k == 0 then e else
      var x := Go(link, e, k - 1);
      if x < |link| then link[x] else x
  }

  /** The walk never leaves the ring, in either direction. */
  lemma {:induction false} GoesRound(next: seq<nat>, prev: seq<nat>, r: seq<nat>, k: nat)
    requires Ring(next, prev, r)
    ensures Go(next, r[0], k) in r && Go(prev, r[0], k) in r
  {
    if k > 0 {
      GoesRound(next, prev, r, k - 1);
      StepStays(next, prev, r, Go(next, r[0], k - 1));
      StepStays(next, prev, r, Go(prev, r[0], k - 1));
    }
  }

  lemma StepStays(next: seq<nat>, prev: seq<nat>, r: seq<nat>, x: nat)
    requires Ring(next, prev, r) && x in r
    ensures x < |next| && next[x] in r && prev[x] in r
  {
    var i :| 0 <= i < |r| && r[i] == x;
    var j, h := i + 1, i - 1;
    if j < |r| { assert next[r[i]] == r[j]; }
    if h >= 0 { assert i == h + 1 && prev[r[i]] == r[h]; }
  }

  /** While no event of the ring has occurred, walking until one that has goes on for ever. */
  lemma WalkForever(next: seq<nat>, prev: seq<nat>, status: seq<Status>, r: seq<nat>)
    requires Ring(next, prev, r) && |status| == |next|
    ensures (forall x :: x in r ==> x < |status| && status[x] != OCCURRED) ==>
      forall k: nat :: Go(next, r[0], k) < |status| && status[Go(next, r[0], k)] != OCCURRED
        && Go(prev, r[0], k) < |status| && status[Go(prev, r[0], k)] != OCCURRED
  {
    forall k: nat ensures Go(next, r[0], k) in r && Go(prev, r[0], k) in r { GoesRound(next, prev, r, k); }
  }
}
