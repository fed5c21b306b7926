/** Wait-for graphs in which every process waits for at most one other: `g[x]` is
    the slot that `x` is blocked on, or a negative number when `x` waits for nobody
    in particular. */
module WaitGraph {

  type Graph = seq<int>

  /** `p` follows the edges of `g` from `p[0]` to its last element. */
  ghost predicate IsPath(g: Graph, p: seq<int>) {
    && |p| > 0
    && (forall i :: 0 <= i < |p| ==> 0 <= p[i] < |g|)
    && (forall i :: 0 <= i < |p| - 1 ==> g[p[i]] == p[i + 1])
  }

  ghost predicate PathBetween(g: Graph, p: seq<int>, x: int, y: int) {
    IsPath(g, p) && p[0] == x && p[|p| - 1] == y
  }

  ghost predicate Reaches(g: Graph, x: int, y: int) {
    exists p :: PathBetween(g, p, x, y)
  }

  /** Nobody waits, directly or through others, for itself. */
  ghost predicate Acyclic(g: Graph) {
    forall p :: IsPath(g, p) && |p| >= 2 ==> p[0] != p[|p| - 1]
  }

  ghost predicate Distinct(p: seq<int>) {
    forall i, j :: 0 <= i < j < |p| ==> p[i] != p[j]
  }

  lemma SubPath(g: Graph, p: seq<int>, i: int, j: int)
    requires IsPath(g, p) && 0 <= i < j <= |p|
    ensures IsPath(g, p[i..j])
  {
    var q := p[i..j];
    forall k | 0 <= k < |q| - 1 ensures g[q[k]] == q[k + 1] {
      assert q[k] == p[i + k] && q[k + 1] == p[i + k + 1];
    }
  }

  lemma PathsDistinct(g: Graph, p: seq<int>)
    requires Acyclic(g) && IsPath(g, p)
    ensures Distinct(p)
  {
    forall i, j | 0 <= i < j < |p| ensures p[i] != p[j] {
      SubPath(g, p, i, j + 1);
      assert p[i..j + 1][0] == p[i] && p[i..j + 1][j - i] == p[j];
    }
  }

  /** Pigeonhole: distinct slot numbers below `n` are at most `n` many. */
  lemma DistinctBounded(p: seq<int>, n: nat)
    requires Distinct(p) && forall i :: 0 <= i < |p| ==> 0 <= p[i] < n
    ensures |p| <= n
  {
    if |p| == 0 {
    } else if p[0] == n - 1 || n - 1 in p {
      var k :| 0 <= k < |p| && p[k] == n - 1;
      var q := p[..k] + p[k + 1..];
      forall i | 0 <= i < |q| ensures 0 <= q[i] < n - 1 {
        assert q[i] == p[if i < k then i else i + 1];
      }
      DistinctBounded(q, n - 1);
    } else {
      DistinctBounded(p, n - 1);
    }
  }

  lemma PathBounded(g: Graph, p: seq<int>)
    requires Acyclic(g) && IsPath(g, p)
    ensures |p| <= |g|
  {
    PathsDistinct(g, p);
    DistinctBounded(p, |g|);
  }

  /** A path that misses `c` leaves room for `c` among the slots. */
  lemma RoomForCaller(g: Graph, p: seq<int>, c: int)
    requires Acyclic(g) && IsPath(g, p) && 0 <= c < |g| && c !in p
    ensures |p| < |g|
  {
    PathsDistinct(g, p);
    DistinctBounded(p + [c], |g|);
  }

  /** Two paths from the same slot agree as far as both go. */
  lemma {:induction false} SameStart(g: Graph, p: seq<int>, q: seq<int>, i: nat)
    requires IsPath(g, p) && IsPath(g, q) && p[0] == q[0]
    requires i < |p| && i < |q|
    ensures p[i] == q[i]
  {
    if i > 0 {
      SameStart(g, p, q, i - 1);
      assert g[p[i - 1]] == p[i] && g[q[i - 1]] == q[i];
    }
  }

  /** Dropping or keeping each edge of an acyclic graph leaves it acyclic. */
  lemma FewerEdges(g: Graph, h: Graph)
    requires Acyclic(g) && |h| == |g|
    requires forall x :: 0 <= x < |g| ==> h[x] == g[x] || h[x] < 0
    ensures Acyclic(h)
  {
    forall p | IsPath(h, p) && |p| >= 2 ensures p[0] != p[|p| - 1] {
      forall i | 0 <= i < |p| - 1 ensures g[p[i]] == p[i + 1] {
        assert h[p[i]] == p[i + 1];
      }
      assert IsPath(g, p);
    }
  }

  /** A path of `g[c := d]` that starts at `d` and meets `c` begins with a path of `g`
      from `d` to `c`. */
  lemma {:induction false} FirstVisit(g: Graph, c: int, d: int, q: seq<int>, k: nat)
    requires 0 <= c < |g|
    requires IsPath(g[c := d], q) && q[0] == d
    requires k < |q| && q[k] == c
    ensures Reaches(g, d, c)
  {
    if j :| 0 <= j < k && q[j] == c {
      FirstVisit(g, c, d, q, j);
    } else {
      var p := q[..k + 1];
      forall i | 0 <= i < |p| - 1 ensures g[p[i]] == p[i + 1] {
        assert q[i] != c && g[c := d][q[i]] == q[i + 1];
      }
      assert PathBetween(g, p, d, c);
    }
  }

  /** Once around a cycle of `h`, starting just behind its `i`-th element. */
  lemma Rotate(h: Graph, p: seq<int>, i: nat) returns (q: seq<int>)
    requires IsPath(h, p) && i < |p| - 1 && p[0] == p[|p| - 1]
    ensures IsPath(h, q) && q[0] == p[i + 1] && q[|q| - 1] == p[i]
  {
    q := p[i + 1..] + p[1..i + 1];
    var m := |p| - 1;
    forall k | 0 <= k < |q| - 1 ensures h[q[k]] == q[k + 1] {
      if k < m - i - 1 {
        assert q[k] == p[i + 1 + k] && q[k + 1] == p[i + 2 + k];
      } else if k == m - i - 1 {
        assert q[k] == p[m] == p[0] && q[k + 1] == p[1];
      } else {
        var a := k - (m - i);
        assert q[k] == p[1 + a] && q[k + 1] == p[2 + a];
      }
    }
  }

  /** The new wait of `c` for `d` closes no cycle if `d` does not lead back to `c`. */
  lemma AddEdge(g: Graph, c: int, d: int)
    requires Acyclic(g) && 0 <= c < |g| && 0 <= d < |g|
    requires !Reaches(g, d, c)
    ensures Acyclic(g[c := d])
  {
    var h := g[c := d];
    forall p | IsPath(h, p) && |p| >= 2 ensures p[0] != p[|p| - 1] {
      if i :| 0 <= i < |p| - 1 && p[i] == c {
        assert h[p[i]] == p[i + 1];
        if p[0] == p[|p| - 1] {
          var q := Rotate(h, p, i);
          FirstVisit(g, c, d, q, |q| - 1);
          assert false;
        }
      } else {
        forall k | 0 <= k < |p| - 1 ensures g[p[k]] == p[k + 1] {
          assert h[p[k]] == p[k + 1];
        }
        assert IsPath(g, p);
      }
    }
  }

  lemma EdgeOnPath(g: Graph, q: seq<int>, i: nat)
    requires IsPath(g, q) && i + 1 < |q|
    ensures 0 <= g[q[i]] < |g|
  {
    assert g[q[i]] == q[i + 1];
  }

  lemma NoEdges(g: Graph)
    requires forall x :: 0 <= x < |g| ==> g[x] < 0
    ensures Acyclic(g)
  {
    forall p | IsPath(g, p) ensures |p| < 2 {
      if |p| >= 2 {
        EdgeOnPath(g, p, 0);
        assert false;
      }
    }
  }

  /** What the walk of `deadlock()` finds out. */
  datatype Walk =
    | Free                  // returns 0
    | Locked(group: nat)    // returns the size of the group
    | Endless               // more steps than there are slots: the loop never ends

  /** The loop of `deadlock()`: `path` holds the processes visited after the caller `c`.
      `exempt` is the outcome of the flag test made for groups of two. */
  function Follow(g: Graph, c: int, exempt: bool, path: seq<int>): (w: Walk)
    requires |path| > 0 && 0 <= path[|path| - 1] < |g|
    decreases |g| - |path|
  {
    var y := g[path[|path| - 1]];
    if y < 0 || y >= |g| then Free
    else if y == c then
      if |path| == 1 && exempt then Free else Locked(|path| + 1)
    else if |path| >= |g| then Endless
    else Follow(g, c, exempt, path + [y])
  }

  /** On an acyclic graph the walk ends, and it reports a deadlock exactly when the
      chain from its first process leads to `c`, unless the two-process exemption hides
      the direct edge. In every round the processes met so far and the caller fit in an array with one
      element per slot. */
  lemma {:induction false} FollowExact(g: Graph, c: int, exempt: bool, path: seq<int>)
    requires Acyclic(g) && IsPath(g, path) && c !in path && 0 <= c < |g|
    ensures var w := Follow(g, c, exempt, path);
      && !w.Endless?
      && (w.Locked? ==> Reaches(g, path[0], c) && 2 <= w.group <= |g|)
      && (w.Free? && Reaches(g, path[0], c) ==> exempt && g[path[0]] == c)
    ensures |path| + 1 <= |g|
    decreases |g| - |path|
  {
    PathBounded(g, path);
    RoomForCaller(g, path, c);
    var x := path[|path| - 1];
    var y := g[x];
    if y < 0 || y >= |g| {
      if Reaches(g, path[0], c) {
        var q :| PathBetween(g, q, path[0], c);
        if |q| <= |path| {
          SameStart(g, path, q, |q| - 1);
        } else {
          SameStart(g, path, q, |path| - 1);
          EdgeOnPath(g, q, |path| - 1);
        }
        assert false;
      }
    } else {
      var longer := path + [y];
      assert IsPath(g, longer) by {
        forall i | 0 <= i < |longer| - 1 ensures g[longer[i]] == longer[i + 1] {}
      }
      PathBounded(g, longer);
      if y == c {
        assert PathBetween(g, longer, path[0], c);
      } else {
        FollowExact(g, c, exempt, longer);
        assert longer[0] == path[0];
        if |path| == 1 && exempt && g[path[0]] == c { assert false; }
      }
    }
  }

  // ---------------------------------------------------------------- walks that never end

  /** Where the walk from `x` is after `n` rounds; it stays where it has left the graph. */
  function Spot(g: Graph, x: int, n: nat): int {
    if n == 0 then x
    else
      var y := Spot(g, x, n - 1);
      if 0 <= y < |g| then g[y] else y
  }

  /** The loop of `deadlock()` is still running after `n` rounds. */
  predicate Going(g: Graph, c: int, x: int, n: nat) { 0 <= Spot(g, x, n) < |g| && Spot(g, x, n) != c }

  lemma {:induction false} SpotOnPath(g: Graph, p: seq<int>, i: nat)
    requires IsPath(g, p) && i < |p|
    ensures Spot(g, p[0], i) == p[i]
  {
    if i > 0 {
      var h := i - 1;
      SpotOnPath(g, p, h);
      assert g[p[h]] == p[h + 1];
    }
  }

  /** A walk that has been somewhere twice goes round for ever. */
  lemma {:induction false} RoundAndRound(g: Graph, p: seq<int>, i: nat, j: nat, n: nat)
    requires IsPath(g, p) && i < j < |p| && p[i] == p[j]
    ensures Spot(g, p[0], n) in p[..j]
  {
    if n > 0 {
      RoundAndRound(g, p, i, j, n - 1);
      var k :| 0 <= k < j && p[k] == Spot(g, p[0], n - 1);
      var l := k + 1;
      assert g[p[k]] == p[l];
      if l == j { assert p[..j][i] == p[l]; } else { assert p[..j][l] == p[l]; }
    } else {
      assert p[..j][0] == p[0];
    }
  }

  lemma Repeats(p: seq<int>, n: nat) returns (i: nat, j: nat)
    requires |p| > n && forall k :: 0 <= k < |p| ==> 0 <= p[k] < n
    ensures i < j < |p| && p[i] == p[j]
  {
    if Distinct(p) { DistinctBounded(p, n); }
    i, j :| 0 <= i < j < |p| && p[i] == p[j];
  }

  /** Endless means what it says: the loop goes on for ever exactly then. */
  lemma {:induction false} EndlessExact(g: Graph, c: int, exempt: bool, path: seq<int>)
    requires IsPath(g, path) && c !in path
    ensures Follow(g, c, exempt, path).Endless? <==> forall n: nat :: Going(g, c, path[0], n)
    decreases |g| - |path|
  {
    var y := g[path[|path| - 1]];
    var k := |path|;
    SpotOnPath(g, path, k - 1);
    assert Spot(g, path[0], k) == y;
    if y < 0 || y >= |g| || y == c {
      assert !Going(g, c, path[0], k);
    } else {
      var longer := path + [y];
      assert IsPath(g, longer) by {
        forall i | 0 <= i < |longer| - 1 ensures g[longer[i]] == longer[i + 1] {}
      }
      if |path| >= |g| {
        var i, j := Repeats(longer, |g|);
        forall n: nat ensures Going(g, c, path[0], n) { RoundAndRound(g, longer, i, j, n); }
      } else {
        EndlessExact(g, c, exempt, longer);
        assert longer[0] == path[0];
      }
    }
  }
}
