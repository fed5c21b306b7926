/** Bitmaps with one bit per privilege structure, in chunks of one word, and the search for the
    first bit that skips empty chunks. */
module SysMap {
  import opened Words
  import opened IpcTypes
  import IpcSpec

  const NR_SYS_PROCS: nat := 64
  const CHUNKS: nat := 2
  const NULL_PRIV_ID: int := -1

  /** The chunks of a map. */
  type Map = seq<Word>

  ghost predicate IsMap(m: Map) { |m| == CHUNKS && forall c :: 0 <= c < CHUNKS ==> IsWord(m[c]) }

  predicate Get(m: Map, b: nat)
    requires |m| == CHUNKS && b < NR_SYS_PROCS
  {
    b % BITS in m[b / BITS]
  }

  /** Turns bit `b` on, and no other. */
  function Set(m: Map, b: nat): (r: Map)
    requires IsMap(m) && b < NR_SYS_PROCS
    ensures IsMap(r) && forall a :: 0 <= a < NR_SYS_PROCS ==> (Get(r, a) <==> Get(m, a) || a == b)
  {
    m[b / BITS := m[b / BITS] + {b % BITS}]
  }

  /** Turns bit `b` off, and no other. */
  function Unset(m: Map, b: nat): (r: Map)
    requires IsMap(m) && b < NR_SYS_PROCS
    ensures IsMap(r) && forall a :: 0 <= a < NR_SYS_PROCS ==> (Get(r, a) <==> Get(m, a) && a != b)
  {
    m[b / BITS := m[b / BITS] - {b % BITS}]
  }

  /** The ids that are on. */
  ghost function Members(m: Map): set<nat>
    requires |m| == CHUNKS
  {
    set b: nat | b < NR_SYS_PROCS && Get(m, b)
  }

  lemma {:induction false} Skip(bits: set<nat>, i: nat, j: nat, n: nat)
    requires i <= j <= n && forall b :: i <= b < j ==> b !in bits
    ensures IpcSpec.FirstFrom(bits, i, n) == IpcSpec.FirstFrom(bits, j, n)
    decreases j - i
  {
    if i < j { Skip(bits, i + 1, j, n); }
  }

  lemma EmptyChunk(m: Map, b: nat)
    requires |m| == CHUNKS && b < NR_SYS_PROCS && b % BITS == 0 && m[b / BITS] == {}
    ensures b + BITS <= NR_SYS_PROCS && forall a :: b <= a < b + BITS ==> !Get(m, a)
  {
    forall a | b <= a < b + BITS ensures !Get(m, a) { assert a / BITS == b / BITS; }
  }

  lemma NoElement(w: Word)
    requires forall j :: j !in w
    ensures w == {}
  {
    forall k ensures k !in w {}
  }

  lemma Element(w: Word) returns (k: int)
    requires w != {}
    ensures k in w
  {
    if forall j :: j !in w { NoElement(w); }
    k :| k in w;
  }

  lemma FilledChunk(m: Map, b: nat) returns (a: nat)
    requires IsMap(m) && b < NR_SYS_PROCS && b % BITS == 0 && m[b / BITS] != {}
    ensures b <= a < NR_SYS_PROCS && Get(m, a)
  {
    var w := m[b / BITS];
    assert IsWord(w);
    var k := Element(w);
    a := b + k;
    assert a / BITS == b / BITS && a % BITS == k;
  }

  /** has_pending: the bit of the named source, or the lowest bit, found chunk by chunk. It finds
      what a scan of all bits finds. */
  method HasPending(m: Map, from: Target) returns (id: int)
    requires IsMap(m) && (from.Ep? ==> 0 <= from.e < NR_SYS_PROCS)
    ensures IpcSpec.HasPending(Members(m), from, NR_SYS_PROCS) == if id == NULL_PRIV_ID then None else Some(id)
  {
    if from.Ep? { return if Get(m, from.e) then from.e else NULL_PRIV_ID; }
    var i := 0;
    while i < NR_SYS_PROCS
      invariant 0 <= i <= NR_SYS_PROCS && i % BITS == 0
      invariant forall b :: 0 <= b < i ==> b !in Members(m)
    {
      if m[i / BITS] != {} {
        ghost var a := FilledChunk(m, i);
        while !Get(m, i)
          invariant 0 <= i <= a && forall b :: 0 <= b < i ==> b !in Members(m)
          decreases a - i
        {
          i := i + 1;
        }
        Skip(Members(m), 0, i, NR_SYS_PROCS);
        return i;
      }
      EmptyChunk(m, i);
      i := i + BITS;
    }
    Skip(Members(m), 0, NR_SYS_PROCS, NR_SYS_PROCS);
    return NULL_PRIV_ID;
  }

  /** The scan finds the lowest bit that is on, or nothing exactly if all are off. */
  lemma {:induction false} ScanLowest(bits: set<nat>, i: nat, n: nat)
    ensures var r := IpcSpec.FirstFrom(bits, i, n);
      && (r.None? <==> forall b :: i <= b < n ==> b !in bits)
      && (r.Some? ==> i <= r.value < n && r.value in bits && forall b :: i <= b < r.value ==> b !in bits)
    decreases n - i
  {
    if i < n && i !in bits { ScanLowest(bits, i + 1, n); }
  }
}
