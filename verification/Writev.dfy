/** Blocking writes made of short non-blocking ones: pth_write_ev and pth_writev_ev. */
module Writev {

  type Byte = bv8

  /** A piece of memory. */
  datatype Iovec = Iovec(base: nat, len: nat)

  const UIO_MAXIOV: nat := 1024
  /** Elements of the vector on the stack. */
  const STACK_IOVECS: nat := 32

  ghost predicate InMemory(mem: seq<Byte>, iov: seq<Iovec>) {
    forall i :: 0 <= i < |iov| ==> iov[i].base + iov[i].len <= |mem|
  }

  /** The bytes that `iov` denotes, in order. */
  function Data(mem: seq<Byte>, iov: seq<Iovec>): seq<Byte>
    requires InMemory(mem, iov)
  {
    if iov == [] then [] else mem[iov[0].base..iov[0].base + iov[0].len] + Data(mem, iov[1..])
  }

  lemma {:induction false} DataAppend(mem: seq<Byte>, iov: seq<Iovec>, v: Iovec)
    requires InMemory(mem, iov) && v.base + v.len <= |mem|
    ensures Data(mem, iov + [v]) == Data(mem, iov) + mem[v.base..v.base + v.len]
  {
    if iov == [] {
      assert iov + [v] == [v] && Data(mem, [v]) == mem[v.base..v.base + v.len] + Data(mem, []);
    } else {
      assert (iov + [v])[1..] == iov[1..] + [v];
      DataAppend(mem, iov[1..], v);
    }
  }

  /** pth_writev_iov_bytes */
  method IovBytes(ghost mem: seq<Byte>, iov: seq<Iovec>) returns (bytes: nat)
    requires InMemory(mem, iov)
    ensures bytes == |Data(mem, iov)|
  {
    bytes := 0;
    var i := 0;
    assert iov[..0] == [];
    while i < |iov|
      invariant 0 <= i <= |iov| && bytes == |Data(mem, iov[..i])|
    {
      DataAppend(mem, iov[..i], iov[i]);
      assert iov[..i] + [iov[i]] == iov[..i + 1];
      if iov[i].len > 0 { bytes := bytes + iov[i].len; }
      i := i + 1;
    }
    assert iov[..i] == iov;
  }

  /** Elements of the temporary vector that pth_writev_ev provides: it compares the number of pieces
      with the size of the stack vector in bytes. */
  function Capacity(iovcnt: nat, sizeofIovec: nat): nat {
    if iovcnt > STACK_IOVECS * sizeofIovec then UIO_MAXIOV else STACK_IOVECS
  }

  /** The temporary vector has room for all pieces exactly if there are few or very many of them. */
  lemma RoomExact(iovcnt: nat, sizeofIovec: nat)
    requires 0 < iovcnt <= UIO_MAXIOV && sizeofIovec > 0
    ensures iovcnt <= Capacity(iovcnt, sizeofIovec) <==> !(STACK_IOVECS < iovcnt <= STACK_IOVECS * sizeofIovec)
  {
  }

  /** 33 pieces do not fit when a piece takes 8 bytes. */
  lemma NoRoom()
    ensures !(33 <= Capacity(33, 8))
  {
  }

  // ---------------------------------------------------------------- the view of what is left

  /** Without its first `k` bytes, `iov` denotes `rest`. */
  ghost predicate Leaves(mem: seq<Byte>, iov: seq<Iovec>, k: nat, rest: seq<Byte>) {
    InMemory(mem, iov) && k <= |Data(mem, iov)| && Data(mem, iov)[k..] == rest
  }

  lemma Skip(mem: seq<Byte>, iov: seq<Iovec>, k: nat, rest: seq<Byte>)
    requires iov != [] && iov[0].len <= k && Leaves(mem, iov, k, rest)
    ensures Leaves(mem, iov[1..], k - iov[0].len, rest)
  {
  }

  lemma Shorten(mem: seq<Byte>, iov: seq<Iovec>, k: nat, rest: seq<Byte>)
    requires iov != [] && k < iov[0].len && Leaves(mem, iov, k, rest)
    ensures Leaves(mem, iov[0 := iov[0].(base := iov[0].base + k, len := iov[0].len - k)], 0, rest)
  {
    var v := iov[0].(base := iov[0].base + k, len := iov[0].len - k);
    assert iov[0 := v][1..] == iov[1..];
    assert mem[iov[0].base..iov[0].base + iov[0].len][k..] == mem[v.base..v.base + v.len];
  }

  /** The pieces still to be written: at first the caller's vector, later the rest of a copy. */
  class View {
    const riov: seq<Iovec>
    const tiov: array<Iovec>
    var started: bool                 // liov is not NULL
    var inTemp: bool                  // liov points into tiov, at element `start`
    var start: nat
    var count: nat                    // liovcnt

    constructor (riov: seq<Iovec>, capacity: nat)
      requires riov != []
      ensures this.riov == riov && tiov.Length == capacity && !started && count == 0 && fresh(tiov)
    {
      this.riov := riov;
      tiov := new Iovec[capacity](_ => Iovec(0, 0));
      started, inTemp, start, count := false, false, 0, 0;
    }

    ghost predicate Valid()
      reads this
    {
      started && if inTemp then start + count <= tiov.Length else count == |riov|
    }

    function Contents(): seq<Iovec>
      requires Valid()
      reads this, tiov
    {
      if inTemp then tiov[start..start + count] else riov
    }

    /** What the view denotes. */
    ghost predicate Denotes(mem: seq<Byte>, data: seq<Byte>)
      reads this, tiov
    {
      Valid() && InMemory(mem, Contents()) && Data(mem, Contents()) == data
    }

    /** The copy of the caller's vector. */
    method CopyVector()
      requires Valid() && !inTemp && tiov.Length >= |riov|
      modifies this`inTemp, this`start, tiov
      ensures Valid() && inTemp && Contents() == riov
    {
      inTemp, start := true, 0;
      var i := 0;
      while i < |riov|
        invariant 0 <= i <= |riov| && Valid() && inTemp && start == 0 && count == |riov|
        invariant forall j :: 0 <= j < i ==> tiov[j] == riov[j]
      {
        tiov[i] := riov[i];
        i := i + 1;
      }
    }

    /** One round of the loop of pth_writev_iov_advance: the first piece is shortened, which ends the
        loop, or dropped. */
    method Hop(left: nat, ghost mem: seq<Byte>, ghost rest: seq<Byte>) returns (more: nat)
      requires Valid() && inTemp && count > 0 && Leaves(mem, Contents(), left, rest)
      modifies this`start, this`count, tiov
      ensures Valid() && Leaves(mem, Contents(), more, rest) && (more == 0 || count < old(count))
    {
      ghost var iov := Contents();
      if tiov[start].len > left {
        Shorten(mem, iov, left, rest);
        tiov[start] := tiov[start].(base := tiov[start].base + left, len := tiov[start].len - left);
        assert Contents() == iov[0 := tiov[start]];
        return 0;
      }
      Skip(mem, iov, left, rest);
      more := left - tiov[start].len;
      start, count := start + 1, count - 1;
      assert Contents() == iov[1..];
    }

    /** The loop of pth_writev_iov_advance. */
    method Move(advance: nat, ghost mem: seq<Byte>, ghost data: seq<Byte>)
      requires Denotes(mem, data) && inTemp && advance <= |data|
      modifies this`start, this`count, tiov
      ensures Denotes(mem, data[advance..])
    {
      var left := advance;
      ghost var rest := data[advance..];
      while count > 0 && left > 0
        invariant Valid() && 0 <= left && Leaves(mem, Contents(), left, rest)
        decreases if left == 0 then 0 else count
      {
        left := Hop(left, mem, rest);
      }
    }

    /** pth_writev_iov_advance: the view denotes what it did, without the first `advance` bytes. */
    method Advance(advance: nat, ghost mem: seq<Byte>, ghost data: seq<Byte>)
      requires if started then Denotes(mem, data) else count == 0 && InMemory(mem, riov) && Data(mem, riov) == data
      requires advance <= |data| && (advance > 0 ==> tiov.Length >= |riov|)
      modifies this, tiov
      ensures Denotes(mem, data[advance..])
    {
      if !started && count == 0 {
        started, inTemp, count := true, false, |riov|;
      }
      if advance > 0 {
        if !inTemp && count == |riov| { CopyVector(); }
        Move(advance, mem, data);
      }
    }
  }

  // ---------------------------------------------------------------- the world outside

  /** What the descriptor will answer to each write, whether each wait will end with the descriptor
      writable (rather than with an extra event), and what has been written so far. A descriptor with
      nothing more to answer fails; waits with nothing foreseen end well. */
  datatype World = World(answers: seq<int>, waits: seq<bool>, out: seq<Byte>) {
    /** The answer to a write of `n` bytes: at most all of them, or -1 for failure. */
    function Answer(n: nat): (s: int)
      ensures -1 <= s <= n
    {
      if answers == [] || answers[0] < 0 then -1 else if answers[0] > n then n else answers[0]
    }

    function Written(data: seq<Byte>): World {
      var s := Answer(|data|);
      World(Rest(answers), waits, if s > 0 then out + data[..s] else out)
    }

    predicate Occurs() { waits == [] || waits[0] }

    function Waited(): World { this.(waits := Rest(waits)) }
  }

  function Rest<T>(q: seq<T>): seq<T> { if q == [] then [] else q[1..] }

  /** How a call ended: the value returned, the last answer of the descriptor, and whether an extra event
      broke off a wait. */
  datatype Ending = Ending(rv: int, last: int, interrupted: bool)

  /** The write loop of both calls, with `left` still to be written after `rv` bytes. */
  function Loop(left: seq<Byte>, rv: nat, ready: bool, extra: bool, w: World): (Ending, World)
    decreases |left|
  {
    if !ready && extra && !w.Occurs() then (Ending(-1, 0, true), w.Waited())
    else
      var v := if !ready && extra then w.Waited() else w;
      var s := v.Answer(|left|);
      if 0 < s < |left| then Loop(left[s..], rv + s, false, extra, v.Written(left))
      else
        var total := if s > 0 then rv + s else rv;
        (Ending(if s < 0 && total == 0 then -1 else total, s, false), v.Written(left))
  }

  // ---------------------------------------------------------------- what is reported

  /** `after` is `before` and the first `n` bytes of `data`. */
  ghost predicate Emitted(before: seq<Byte>, after: seq<Byte>, data: seq<Byte>, n: nat) {
    n <= |data| && after == before + data[..n]
  }

  /** The result says how many bytes were emitted; failure stands for none. */
  ghost predicate Exact(before: seq<Byte>, after: seq<Byte>, data: seq<Byte>, e: Ending) {
    Emitted(before, after, data, if e.rv < 0 then 0 else e.rv)
  }

  /** After `k` short writes the wait is broken off. */
  ghost predicate CutAt(n: nat, ready: bool, answers: seq<int>, waits: seq<bool>, k: nat) {
    if k == 0 then !ready && waits != [] && !waits[0]
    else
      && (ready || waits == [] || waits[0]) && answers != [] && 0 < answers[0] < n
      && CutAt(n - answers[0], false, answers[1..], if ready then waits else Rest(waits), k - 1)
  }

  /** A wait is broken off after at least one short write. */
  ghost predicate CutShort(n: nat, ready: bool, w: World) {
    exists k: nat :: k >= 1 && CutAt(n, ready, w.answers, w.waits, k)
  }

  /** `m` bytes of `left` have been emitted after `rv` others. Unless a wait was broken off they are all
      counted, failure means none at all, and less than everything means that the descriptor took nothing or
      failed in the end. */
  ghost predicate Counted(before: seq<Byte>, after: seq<Byte>, left: seq<Byte>, rv: nat, e: Ending, m: nat) {
    && Emitted(before, after, left, m)
    && (e.interrupted ==> e.rv == -1)
    && (!e.interrupted ==> (e.rv == rv + m || (e.rv == -1 && rv + m == 0 && e.last < 0)) && (m < |left| ==> e.last <= 0))
  }

  lemma CountedMore(before: seq<Byte>, after: seq<Byte>, left: seq<Byte>, rv: nat, e: Ending, s: nat, m: nat)
    requires 0 < s <= |left| && Counted(before + left[..s], after, left[s..], rv + s, e, m)
    ensures Counted(before, after, left, rv, e, s + m)
  {
    assert left[..s] + left[s..][..m] == left[..s + m];
  }

  /** The loop emits a prefix of what is left, and counts it unless an extra event breaks it off. */
  lemma {:induction false} LoopCounts(left: seq<Byte>, rv: nat, ready: bool, extra: bool, w: World) returns (m: nat)
    ensures var (e, u) := Loop(left, rv, ready, extra, w);
      Counted(w.out, u.out, left, rv, e, m) && (e.interrupted ==> extra)
    decreases |left|
  {
    m := 0;
    if ready || !extra || w.Occurs() {
      var v := if !ready && extra then w.Waited() else w;
      var s := v.Answer(|left|);
      if 0 < s < |left| {
        var (e, u) := Loop(left[s..], rv + s, false, extra, v.Written(left));
        m := LoopCounts(left[s..], rv + s, false, extra, v.Written(left));
        CountedMore(w.out, u.out, left, rv, e, s, m);
        m := s + m;
      } else {
        m := LastCount(left, rv, v);
      }
    }
  }

  /** The end of the loop: the last write took everything or nothing. */
  lemma LastCount(left: seq<Byte>, rv: nat, v: World) returns (m: nat)
    requires !(0 < v.Answer(|left|) < |left|)
    ensures var s := v.Answer(|left|);
      var total := if s > 0 then rv + s else rv;
      Counted(v.out, v.Written(left).out, left, rv, Ending(if s < 0 && total == 0 then -1 else total, s, false), m)
  {
    var s := v.Answer(|left|);
    m := if s > 0 then s else 0;
    assert left[..0] == [];
  }

  /** A wait that is broken off is one that the script foresees, after as many short writes. */
  lemma {:induction false} LoopCut(left: seq<Byte>, rv: nat, ready: bool, w: World) returns (k: nat)
    ensures var (e, u) := Loop(left, rv, ready, true, w);
      e.interrupted ==> CutAt(|left|, ready, w.answers, w.waits, k) && (k == 0 ==> u.out == w.out)
    decreases |left|
  {
    k := 0;
    if ready || w.Occurs() {
      var v := if !ready then w.Waited() else w;
      var s := v.Answer(|left|);
      if 0 < s < |left| {
        var j := LoopCut(left[s..], rv + s, false, v.Written(left));
        k := j + 1;
      }
    }
  }

  /** And every one foreseen is broken off, with something emitted before. */
  lemma {:induction false} CutLoop(left: seq<Byte>, rv: nat, ready: bool, w: World, k: nat)
    requires CutAt(|left|, ready, w.answers, w.waits, k)
    ensures var (e, u) := Loop(left, rv, ready, true, w); e.interrupted && (k > 0 ==> |u.out| > |w.out|)
    decreases k
  {
    if k > 0 {
      var v := if !ready then w.Waited() else w;
      var s := v.Answer(|left|);
      assert s == w.answers[0];
      var rest := v.Written(left);
      CutLoop(left[s..], rv + s, false, rest, k - 1);
      var m := LoopCounts(left[s..], rv + s, false, true, rest);
    }
  }

  /** The result of a blocking write is exact if and only if no wait is broken off after a short write; in
      particular if there are no extra events. */
  lemma ReportExact(data: seq<Byte>, ready: bool, extra: bool, w: World)
    ensures var (e, u) := Loop(data, 0, ready, extra, w);
      Exact(w.out, u.out, data, e) <==> !(extra && CutShort(|data|, ready, w))
  {
    var (e, u) := Loop(data, 0, ready, extra, w);
    var m := LoopCounts(data, 0, ready, extra, w);
    assert data[..0] == [];
    if extra && CutShort(|data|, ready, w) {
      var k: nat :| k >= 1 && CutAt(|data|, ready, w.answers, w.waits, k);
      CutLoop(data, 0, ready, w, k);
    } else if e.interrupted {
      var k := LoopCut(data, 0, ready, w);
      assert k == 0;
    }
  }

  /** How many of `n` bytes a descriptor that gives these answers takes until it takes none or fails. */
  function Taken(answers: seq<int>, n: nat): (m: nat)
    ensures m <= n
  {
    if answers == [] || answers[0] <= 0 then 0
    else if answers[0] >= n then n
    else answers[0] + Taken(answers[1..], n - answers[0])
  }

  /** The bytes taken in the first `k` short writes. */
  function Shorts(answers: seq<int>, k: nat): int {
    if k == 0 || answers == [] then 0 else answers[0] + Shorts(answers[1..], k - 1)
  }

  lemma EmittedMore(before: seq<Byte>, after: seq<Byte>, left: seq<Byte>, s: nat, m: nat)
    requires s <= |left| && Emitted(before + left[..s], after, left[s..], m)
    ensures Emitted(before, after, left, s + m)
  {
    assert left[..s] + left[s..][..m] == left[..s + m];
  }

  /** The end of the loop, and a short write, as the answers have them. */
  lemma TakenOnce(left: seq<Byte>, v: World)
    ensures var s := v.Answer(|left|);
      if 0 < s < |left| then
        && Taken(v.answers, |left|) == s + Taken(v.Written(left).answers, |left| - s)
        && v.Written(left).out == v.out + left[..s]
      else Emitted(v.out, v.Written(left).out, left, Taken(v.answers, |left|))
  {
    assert left[..0] == [];
  }

  /** The loop stops neither early nor late: unless a wait is broken off, everything that the descriptor takes is
      written. */
  lemma {:induction false} LoopTakes(left: seq<Byte>, rv: nat, ready: bool, extra: bool, w: World)
    ensures var (e, u) := Loop(left, rv, ready, extra, w);
      !e.interrupted ==> Emitted(w.out, u.out, left, Taken(w.answers, |left|))
    decreases |left|
  {
    if ready || !extra || w.Occurs() {
      var v := if !ready && extra then w.Waited() else w;
      var s := v.Answer(|left|);
      TakenOnce(left, v);
      if 0 < s < |left| {
        var (e, u) := Loop(left[s..], rv + s, false, extra, v.Written(left));
        LoopTakes(left[s..], rv + s, false, extra, v.Written(left));
        if !e.interrupted { EmittedMore(w.out, u.out, left, s, Taken(v.Written(left).answers, |left| - s)); }
      }
    }
  }

  /** If one is broken off after `k` short writes, what these took is written. */
  lemma {:induction false} CutTakes(left: seq<Byte>, rv: nat, ready: bool, w: World, k: nat)
    requires CutAt(|left|, ready, w.answers, w.waits, k)
    ensures var (e, u) := Loop(left, rv, ready, true, w);
      0 <= Shorts(w.answers, k) && Emitted(w.out, u.out, left, Shorts(w.answers, k))
    decreases k
  {
    assert left[..0] == [];
    if k > 0 {
      var v := if !ready then w.Waited() else w;
      var s := v.Answer(|left|);
      assert s == w.answers[0];
      CutTakes(left[s..], rv + s, false, v.Written(left), k - 1);
      var u := Loop(left[s..], rv + s, false, true, v.Written(left)).1;
      EmittedMore(w.out, u.out, left, s, Shorts(w.answers[1..], k - 1));
    }
  }

  /** It happens: of two bytes one is written, then an extra event breaks off the wait, and the call reports
      failure. */
  lemma PartialWriteHidden()
    ensures var data: seq<Byte> := [1, 2];
      var (e, u) := Loop(data, 0, true, true, World([1], [false], []));
      e.rv == -1 && u.out == [1] && !Exact([], u.out, data, e)
  {
    var data: seq<Byte> := [1, 2];
    var w := World([1], [false], []);
    assert w.Answer(2) == 1 && data[1..] == [2];
    assert w.Written(data) == World([], [false], [1]);
    assert Loop([2], 1, false, true, w.Written(data)).1.out == [1];
  }

  // ---------------------------------------------------------------- the calls

  /** The other end of the descriptor and the scheduler that waits for it. */
  class Device {
    var world: World

    constructor (w: World)
      ensures world == w
    {
      world := w;
    }

    /** One call of write or writev, after interrupted attempts. */
    method Write(data: seq<Byte>) returns (s: int)
      modifies this
      ensures s == old(world).Answer(|data|) && world == old(world).Written(data)
    {
      s := world.Answer(|data|);
      world := world.Written(data);
    }

    /** pth_wait for the descriptor, with extra events: whether the descriptor ended it. */
    method Wait() returns (occurred: bool)
      modifies this
      ensures occurred == old(world).Occurs() && world == old(world).Waited()
    {
      occurred := world.Occurs();
      world := world.Waited();
    }
  }

  /** The descriptor: its mode, or that the mode could not be changed. */
  datatype Fd = Blocking | NonBlocking | ModeError | Invalid

  /** What the first poll found. */
  datatype Poll = Writable | NotYet | PollError

  datatype Errno = None | EINVAL | EBADF | Passed

  /** The first write takes only a part of `n` bytes, so that the vector has to be copied. */
  predicate ShortFirst(n: nat, ready: bool, extra: bool, w: World) {
    (ready || !extra || w.Occurs()) && 0 < w.Answer(n) < n
  }

  /** The copy of the vector runs over the end of the temporary one. */
  predicate Overruns(iovcnt: nat, sizeofIovec: nat, n: nat, ready: bool, extra: bool, w: World) {
    Capacity(iovcnt, sizeofIovec) < iovcnt && ShortFirst(n, ready, extra, w)
  }

  /** The wait for a descriptor that is not ready; without extra events it can only end well. */
  method Await(dev: Device, ready: bool, extra: bool) returns (occurred: bool)
    modifies dev
    ensures occurred == (ready || !extra || old(dev.world).Occurs())
    ensures dev.world == if !ready && extra then old(dev.world).Waited() else old(dev.world)
  {
    occurred := true;
    if !ready && extra { occurred := dev.Wait(); }
  }

  /** pth_writev_ev. `extra` says whether the caller passes extra events, `overrun` that the copy of the vector
      leaves the temporary one, after which nothing is known. */
  method WriteVector(dev: Device, mem: seq<Byte>, iov: seq<Iovec>, sizeofIovec: nat, fd: Fd, poll: Poll, extra: bool)
    returns (e: Ending, errno: Errno, overrun: bool)
    requires InMemory(mem, iov)
    modifies dev
    ensures overrun <==>
      (0 < |iov| <= UIO_MAXIOV && fd == Blocking &&
        Overruns(|iov|, sizeofIovec, |Data(mem, iov)|, poll == Writable, extra, old(dev.world)))
    ensures errno == EINVAL <==> !(0 < |iov| <= UIO_MAXIOV)
    ensures errno == EBADF <==> 0 < |iov| <= UIO_MAXIOV && (fd == Invalid || fd == ModeError)
    ensures errno == EINVAL || errno == EBADF ==> e.rv == -1 && dev.world == old(dev.world)
    ensures !overrun ==> (errno == None <==> e.rv >= 0)
    ensures !overrun && (errno == None || errno == Passed) && fd == Blocking ==>
      (e, dev.world) == Loop(Data(mem, iov), 0, poll == Writable, extra, old(dev.world))
    ensures (errno == None || errno == Passed) && fd == NonBlocking ==>
      e.rv == old(dev.world).Answer(|Data(mem, iov)|) && dev.world == old(dev.world).Written(Data(mem, iov))
    ensures !overrun ==> (Exact(old(dev.world).out, dev.world.out, Data(mem, iov), e) <==>
      !(0 < |iov| <= UIO_MAXIOV && fd == Blocking && extra && CutShort(|Data(mem, iov)|, poll == Writable, old(dev.world))))
  {
    overrun := false;
    assert Data(mem, iov)[..0] == [];
    if |iov| <= 0 || |iov| > UIO_MAXIOV { return Ending(-1, 0, false), EINVAL, false; }
    if fd == Invalid || fd == ModeError { return Ending(-1, 0, false), EBADF, false; }
    if fd == Blocking {
      ReportExact(Data(mem, iov), poll == Writable, extra, dev.world);
      e, overrun := WriteBlocking(dev, mem, iov, sizeofIovec, poll, extra);
    } else {
      e := WriteOnce(dev, Data(mem, iov));
    }
    errno := if e.rv >= 0 then None else Passed;
  }

  /** The branch of both calls for a descriptor that does not block. */
  method WriteOnce(dev: Device, data: seq<Byte>) returns (e: Ending)
    modifies dev
    ensures e.rv == old(dev.world).Answer(|data|) && dev.world == old(dev.world).Written(data)
    ensures Exact(old(dev.world).out, dev.world.out, data, e)
  {
    assert data[..0] == [];
    var s := dev.Write(data);
    e := Ending(s, s, false);
  }

  /** The blocking branch of pth_writev_ev. */
  method WriteBlocking(dev: Device, mem: seq<Byte>, iov: seq<Iovec>, sizeofIovec: nat, poll: Poll, extra: bool)
    returns (e: Ending, overrun: bool)
    requires InMemory(mem, iov) && iov != []
    modifies dev
    ensures overrun <==> Overruns(|iov|, sizeofIovec, |Data(mem, iov)|, poll == Writable, extra, old(dev.world))
    ensures !overrun ==> (e, dev.world) == Loop(Data(mem, iov), 0, poll == Writable, extra, old(dev.world))
  {
    ghost var data := Data(mem, iov);
    var view := new View(iov, Capacity(|iov|, sizeofIovec));
    var nbytes := IovBytes(mem, iov);
    view.Advance(0, mem, data);
    assert data[0..] == data;
    e, overrun := Drain(dev, view, mem, data, nbytes, poll == Writable, extra);
  }

  /** One write of what the view denotes, and the advance of the view after a short write, which the first time
      copies the vector. */
  method WriteView(dev: Device, view: View, mem: seq<Byte>, ghost rest: seq<Byte>, left: nat) returns (s: int, overrun: bool)
    requires view.Denotes(mem, rest) && left == |rest|
    modifies dev, view, view.tiov
    ensures s == old(dev.world).Answer(left) && dev.world == old(dev.world).Written(rest)
    ensures overrun <==> 0 < s < left && view.tiov.Length < |view.riov|
    ensures 0 < s < left && !overrun ==> view.Denotes(mem, rest[s..])
  {
    overrun := false;
    s := dev.Write(Data(mem, view.Contents()));
    if 0 < s < left {
      if view.tiov.Length < |view.riov| { return s, true; }
      view.Advance(s, mem, rest);
    }
  }

  /** One round of the loop of pth_writev_ev; `more` says whether to go on after a short write of `s` bytes. */
  method Round(dev: Device, view: View, mem: seq<Byte>, ghost rest: seq<Byte>, left: nat, rv: nat, n: bool, extra: bool)
    returns (more: bool, s: int, e: Ending, overrun: bool)
    requires view.Denotes(mem, rest) && left == |rest|
    modifies dev, view, view.tiov
    ensures overrun <==> view.tiov.Length < |view.riov| && ShortFirst(left, n, extra, old(dev.world))
    ensures more ==> 0 < s < left && view.Denotes(mem, rest[s..]) && view.tiov.Length >= |view.riov|
    ensures more ==> Loop(rest[s..], rv + s, false, extra, dev.world) == Loop(rest, rv, n, extra, old(dev.world))
    ensures !more && !overrun ==> (e, dev.world) == Loop(rest, rv, n, extra, old(dev.world))
  {
    more, s, overrun := false, 0, false;
    var occurred := Await(dev, n, extra);
    if !occurred { return false, 0, Ending(-1, 0, true), false; }
    s, overrun := WriteView(dev, view, mem, rest, left);
    more := 0 < s < left && !overrun;
    var total := if s > 0 then rv + s else rv;
    e := Ending(if s < 0 && total == 0 then -1 else total, s, false);
  }

  /** The loop of pth_writev_ev: at every point the view denotes the bytes still to be written. */
  method Drain(dev: Device, view: View, mem: seq<Byte>, ghost data: seq<Byte>, nbytes: nat, ready: bool, extra: bool)
    returns (e: Ending, overrun: bool)
    requires view.Denotes(mem, data) && nbytes == |data|
    modifies dev, view, view.tiov
    ensures overrun <==> view.tiov.Length < |view.riov| && ShortFirst(|data|, ready, extra, old(dev.world))
    ensures !overrun ==> (e, dev.world) == Loop(data, 0, ready, extra, old(dev.world))
  {
    var rv, left, n := 0, nbytes, ready;
    ghost var rest, end := data, Loop(data, 0, ready, extra, dev.world);
    while true
      invariant 0 <= rv && left == |rest| && view.Denotes(mem, rest) && Loop(rest, rv, n, extra, dev.world) == end
      invariant view.tiov.Length < |view.riov| ==> rest == data && n == ready && dev.world == old(dev.world)
      decreases left
    {
      var more, s;
      more, s, e, overrun := Round(dev, view, mem, rest, left, rv, n, extra);
      if !more { return; }
      rv, left, n := rv + s, left - s, false;
      rest := rest[s..];
    }
  }

  /** pth_write_ev */
  method WriteBuffer(dev: Device, data: seq<Byte>, fd: Fd, poll: Poll, extra: bool) returns (e: Ending, errno: Errno)
    modifies dev
    ensures errno == EBADF <==> data != [] && (fd == Invalid || fd == ModeError)
    ensures errno == EBADF ==> e.rv == -1 && dev.world == old(dev.world)
    ensures errno == None <==> e.rv >= 0
    ensures data != [] && fd == Blocking && poll != PollError ==>
      (e, dev.world) == Loop(data, 0, poll == Writable, extra, old(dev.world))
    ensures data == [] ==> e.rv == 0 && dev.world == old(dev.world)
    ensures data != [] && fd == Blocking && poll == PollError ==> e.rv == -1 && dev.world == old(dev.world)
    ensures data != [] && fd == NonBlocking ==>
      e.rv == old(dev.world).Answer(|data|) && dev.world == old(dev.world).Written(data)
    ensures Exact(old(dev.world).out, dev.world.out, data, e) <==>
      !(data != [] && fd == Blocking && poll != PollError && extra && CutShort(|data|, poll == Writable, old(dev.world)))
  {
    assert data[..0] == [];
    if |data| == 0 { return Ending(0, 0, false), None; }
    if fd == Invalid || fd == ModeError { return Ending(-1, 0, false), EBADF; }
    if fd == Blocking {
      if poll == PollError { return Ending(-1, -1, false), Passed; }
      ReportExact(data, poll == Writable, extra, dev.world);
      e := DrainBuffer(dev, data, poll == Writable, extra);
    } else {
      e := WriteOnce(dev, data);
    }
    errno := if e.rv >= 0 then None else Passed;
  }

  /** The loop of pth_write_ev. */
  method DrainBuffer(dev: Device, data: seq<Byte>, ready: bool, extra: bool) returns (e: Ending)
    modifies dev
    ensures (e, dev.world) == Loop(data, 0, ready, extra, old(dev.world))
  {
    var rv, buf, nbytes, n := 0, 0, |data|, ready;
    assert data[0..] == data;
    while true
      invariant 0 <= rv && 0 <= buf <= |data| && buf + nbytes == |data|
      invariant Loop(data[buf..], rv, n, extra, dev.world) == Loop(data, 0, ready, extra, old(dev.world))
      decreases nbytes
    {
      var occurred := Await(dev, n, extra);
      if !occurred { return Ending(-1, 0, true); }
      assert data[buf..buf + nbytes] == data[buf..];
      var s := dev.Write(data[buf..buf + nbytes]);
      if s > 0 { rv := rv + s; }
      if 0 < s < nbytes {
        assert data[buf..][s..] == data[buf + s..];
        nbytes, buf, n := nbytes - s, buf + s, false;
      } else {
        return Ending(if s < 0 && rv == 0 then -1 else rv, s, false);
      }
    }
  }
}
