/** The hook chains, the active ids and the mask of the interrupt controller, changed in place.
    Every method does to the table what the function in Irq does to its contents. */
module IrqTable {
  import opened Lists
  import opened Words
  import opened Irq

  lemma {:induction false} InUseAppend(id: seq<Word>, q: seq<nat>, h: nat)
    requires Within(q, |id|) && h < |id|
    ensures Within(q + [h], |id|) && InUse(id, q + [h]) == InUse(id, q) + id[h]
  {
    if q != [] {
      assert (q + [h])[1..] == q[1..] + [h];
      InUseAppend(id, q[1..], h);
    } else {
      assert q + [h] == [h];
    }
  }

  lemma {:induction false} InUseSame(id: seq<Word>, q: seq<nat>, j: nat, w: Word)
    requires Within(q, |id|) && j < |id| && j !in q
    ensures InUse(id[j := w], q) == InUse(id, q)
  {
    if q != [] { InUseSame(id, q[1..], j, w); }
  }

  /** An element that is to be dropped may be cut out first. */
  lemma {:induction false} DropCut(id: seq<Word>, q: seq<nat>, n: nat, w: Word)
    requires Within(q, |id|) && n < |q| && id[q[n]] == w
    ensures Within(Cut(q, n), |id|) && Drop(id, Cut(q, n), w) == Drop(id, q, w)
  {
    if n == 0 {
      assert Cut(q, n) == q[1..];
    } else {
      var rest := q[1..];
      DropCut(id, rest, n - 1, w);
      assert Cut(q, n) == [q[0]] + Cut(rest, n - 1);
      assert ([q[0]] + Cut(rest, n - 1))[1..] == Cut(rest, n - 1);
    }
  }

  lemma CutDisjoint(lines: seq<seq<nat>>, i: nat, n: nat)
    requires Disjoint(lines) && i < |lines| && n < |lines[i]| && NoDuplicates(lines[i])
    ensures Disjoint(lines[i := Cut(lines[i], n)]) && NoDuplicates(Cut(lines[i], n))
  {
    WithoutIsCut(lines[i], n);
    WithoutMembers(lines[i], lines[i][n]);
    var after := lines[i := Cut(lines[i], n)];
    assert forall a, x :: 0 <= a < |lines| && x in after[a] ==> x in lines[a];
  }

  /** Where the loop of rm_irq_handler stands on a line that was `q0`: everything before element
      `n` of what it is now stays. */
  ghost predicate Removing(id: seq<Word>, q: seq<nat>, act: Word, w: Word, q0: seq<nat>, act0: Word, n: nat) {
    && Within(q, |id|) && Within(q0, |id|) && n <= |q| && (forall j :: 0 <= j < n ==> id[q[j]] != w)
    && Drop(id, q, w) == Drop(id, q0, w)
    && (q == q0 || |q| < |q0|) && act == if q == q0 then act0 else act0 - w
  }

  lemma RemovingOn(id: seq<Word>, q: seq<nat>, act: Word, w: Word, q0: seq<nat>, act0: Word, n: nat)
    requires Removing(id, q, act, w, q0, act0, n) && n < |q| && id[q[n]] == w
    ensures Removing(id, Cut(q, n), if act * w != {} then act - w else act, w, q0, act0, n)
  {
    DropCut(id, q, n, w);
    if act0 * w == {} {
      forall k | k in act0 ensures k !in w { assert k !in act0 * w; }
    }
    assert (act0 - w) * w == {};
  }

  lemma RemovingDone(id: seq<Word>, q: seq<nat>, act: Word, w: Word, q0: seq<nat>, act0: Word)
    requires Removing(id, q, act, w, q0, act0, |q|)
    ensures q == Drop(id, q0, w)
  {
    forall h | h in q ensures id[h] != w {}
    DropNothing(id, q, w);
  }

  class Controller {
    const next: array<int>
    const irq: array<int>
    const id: array<Word>
    const handlers: array<int>
    const act: array<Word>
    const masked: array<bool>
    ghost var lines: seq<seq<nat>>

    /** Lines without hooks, all masked. */
    constructor (hooks: nat, vectors: nat)
      ensures Valid() && Initial(Abs()) && |lines| == vectors && id.Length == hooks
      ensures fresh(next) && fresh(irq) && fresh(id) && fresh(handlers) && fresh(act) && fresh(masked)
    {
      next := new int[hooks](_ => NULL);
      irq := new int[hooks](_ => NULL);
      id := new Word[hooks](_ => {});
      handlers := new int[vectors](_ => NULL);
      act := new Word[vectors](_ => {});
      masked := new bool[vectors](_ => true);
      lines := seq(vectors, _ => []);
      new;
      forall i | 0 <= i < |lines| ensures LinkedAt(i) {}
    }

    ghost predicate LinkedAt(i: nat)
      requires i < handlers.Length && i < |lines|
      reads this`lines, handlers, next
    {
      Linked(handlers[i], next[..], lines[i])
    }

    ghost predicate Valid()
      reads this`lines, next, irq, id, handlers, act, masked
    {
      && next.Length == irq.Length == id.Length && handlers.Length == act.Length == masked.Length == |lines|
      && next != irq && next != handlers && irq != handlers && id != act
      && forall i :: 0 <= i < |lines| ==> LinkedAt(i)
    }

    ghost function Abs(): Irqs
      reads this, irq, id, act, masked
    {
      Irqs(irq[..], id[..], lines, act[..], masked[..])
    }

    /** The walk of put_irq_handler: whether `h` is on line `i`, the last hook, and the ids in use. */
    method Survey(h: nat, i: nat) returns (there: bool, last: int, bitmap: Word)
      requires Valid() && Chains(Abs()) && i < handlers.Length
      ensures there <==> h in lines[i]
      ensures !there ==> last == (if lines[i] == [] then NULL else lines[i][|lines[i]| - 1]) && bitmap == InUse(id[..], lines[i])
    {
      ghost var q, n := lines[i], 0;
      assert LinkedAt(i) && Within(q, id.Length);
      last, bitmap, there := NULL, {}, false;
      var x := handlers[i];
      assert q[..0] == [];
      while x != NULL
        invariant 0 <= n <= |q| && x == (if n < |q| then q[n] else NULL) && h !in q[..n] && !there
        invariant last == (if n == 0 then NULL else q[n - 1]) && bitmap == InUse(id[..], q[..n])
        decreases |q| - n
      {
        if x == h { return true, last, bitmap; }
        InUseAppend(id[..], q[..n], x);
        assert q[..n] + [x] == q[..n + 1];
        bitmap := bitmap + id[x];
        last, x := x, next[x];
        n := n + 1;
      }
      assert q[..n] == q;
    }

    /** The search for the lowest id not in use, by shifting. */
    method LowestFree(bitmap: Word) returns (w: Word)
      ensures w == FreeId(bitmap, 0)
    {
      w := {0};
      ghost var k := 0;
      while w != {}
        invariant 0 <= k <= BITS && w == (if k < BITS then {k} else {}) && FreeId(bitmap, k) == FreeId(bitmap, 0)
        decreases BITS - k
      {
        if bitmap * w == {} { return; }
        w := Shl(w);
        k := k + 1;
      }
    }

    /** Links `h` after `last`, or as the first hook of line `i`. */
    method LinkAfter(h: nat, i: nat, last: int)
      requires Valid() && h < id.Length && i < handlers.Length && Disjoint(lines) && h !in lines[i]
      requires forall j :: 0 <= j < |lines| ==> NoDuplicates(lines[j])
      requires last == (if lines[i] == [] then NULL else lines[i][|lines[i]| - 1])
      modifies handlers, next, this`lines
      ensures Valid() && lines == Detach(old(lines), h)[i := old(lines)[i] + [h]]
    {
      ghost var q, link, cut := lines[i], next[..], Detach(lines, h);
      forall j | 0 <= j < |lines| ensures Linked(handlers[j], link[h := NULL], cut[j]) {
        assert LinkedAt(j);
        LinkedUpTo(handlers[j], link, lines[j], h);
      }
      LinkedAppend(handlers[i], link[h := NULL], q, h);
      next[h] := NULL;
      assert next[..] == link[h := NULL];
      if last == NULL {
        handlers[i] := h;
      } else {
        forall j | 0 <= j < |lines| && j != i ensures Linked(handlers[j], link[h := NULL][last := h], cut[j]) {
          assert last in q && cut[j] <= lines[j];
          LinkedElsewhere(handlers[j], link[h := NULL], cut[j], last, h);
        }
        next[last] := h;
        assert next[..] == link[h := NULL][last := h];
      }
      lines := cut[i := q + [h]];
      forall j | 0 <= j < |lines| ensures LinkedAt(j) {}
    }

    /** put_irq_handler. It ends the run if the line is full. */
    method Put(h: nat, i: nat) returns (r: Outcome)
      requires Valid() && Inv(Abs()) && Possible(Abs(), PutHook(h, i))
      modifies next, irq, id, handlers, act, masked, this`lines
      ensures Valid() && Chains(old(Abs())) && (Abs(), r) == Irq.Put(old(Abs()), h, i)
    {
      InvChains(Abs());
      InvDisjoint(Abs());
      var there, last, bitmap := Survey(h, i);
      if there { return AlreadyThere; }
      var w := LowestFree(bitmap);
      if w == {} { return TooMany; }
      LinkAfter(h, i, last);
      irq[h] := i;
      id[h] := w;
      act[i] := act[i] - w;
      if act[i] == {} { masked[i] := false; }
      return Done;
    }

    /** Links around hook `x`, element `n` of line `i`. */
    method Unlink(i: nat, prev: int, x: nat, ghost n: nat)
      requires Valid() && i < handlers.Length && Disjoint(lines) && NoDuplicates(lines[i])
      requires n < |lines[i]| && lines[i][n] == x && prev == (if n == 0 then NULL else lines[i][n - 1])
      modifies handlers, next, this`lines
      ensures Valid() && lines == old(lines)[i := Cut(old(lines)[i], n)]
    {
      ghost var q, link := lines[i], next[..];
      forall j | 0 <= j < |lines| ensures Linked(handlers[j], link, lines[j]) { assert LinkedAt(j); }
      LinkedCut(handlers[i], link, q, n);
      if prev == NULL {
        handlers[i] := next[x];
        assert next[..] == link;
      } else {
        forall j | 0 <= j < |lines| && j != i ensures Linked(handlers[j], link[prev := link[x]], lines[j]) {
          assert prev in q;
          LinkedElsewhere(handlers[j], link, lines[j], prev, link[x]);
        }
        next[prev] := next[x];
        assert next[..] == link[prev := link[x]];
      }
      lines := lines[i := Cut(q, n)];
      forall j | 0 <= j < |lines| ensures LinkedAt(j) {}
    }

    /** A hook leaves the chain, and its id the active ones. */
    method TakeHook(i: nat, w: Word, prev: int, x: nat, ghost n: nat)
      requires Valid() && i < |lines| && Disjoint(lines) && NoDuplicates(lines[i])
      requires n < |lines[i]| && lines[i][n] == x && prev == (if n == 0 then NULL else lines[i][n - 1])
      modifies handlers, next, act, this`lines
      ensures Valid() && lines == old(lines)[i := Cut(old(lines)[i], n)]
      ensures act[..] == old(act[..])[i := if old(act[i]) * w != {} then old(act[i]) - w else old(act[i])]
    {
      Unlink(i, prev, x, n);
      if act[i] * w != {} { act[i] := act[i] - w; }
    }

    /** The hook after `prev` on line `i`, or the first one. */
    method After(i: nat, prev: int, ghost n: nat) returns (x: int)
      requires Valid() && i < |lines| && n <= |lines[i]| && prev == (if n == 0 then NULL else lines[i][n - 1])
      ensures x == if n < |lines[i]| then lines[i][n] else NULL
    {
      assert LinkedAt(i);
      x := if prev == NULL then handlers[i] else next[prev];
    }

    /** Where the loop stands: after `prev`, the hook before element `n`. */
    ghost predicate At(i: nat, w: Word, prev: int, n: nat, q0: seq<nat>, act0: Word)
      reads this`lines, next, irq, id, handlers, act, masked
    {
      && Valid() && i < |lines| && Disjoint(lines) && NoDuplicates(lines[i])
      && Removing(id[..], lines[i], act[i], w, q0, act0, n)
      && prev == (if n == 0 then NULL else lines[i][n - 1])
    }

    /** One round of the loop at a hook `x` that has the id `w`. */
    method RoundTake(i: nat, w: Word, prev: int, x: nat, ghost n: nat, ghost q0: seq<nat>, ghost act0: Word)
      requires At(i, w, prev, n, q0, act0) && n < |lines[i]| && x == lines[i][n] && id[x] == w
      modifies handlers, next, act, this`lines
      ensures At(i, w, prev, n, q0, act0) && |lines[i]| < |old(lines)[i]|
      ensures lines == old(lines)[i := lines[i]] && act[..] == old(act[..])[i := act[i]]
    {
      ghost var q, a, ids := lines[i], act[i], id[..];
      RemovingOn(ids, q, a, w, q0, act0, n);
      CutDisjoint(lines, i, n);
      TakeHook(i, w, prev, x, n);
      assert lines[i] == Cut(q, n) && act[i] == (if a * w != {} then a - w else a) && id[..] == ids;
    }

    /** One round of the loop, at hook `x`. */
    method Round(i: nat, w: Word, prev: int, x: nat, ghost n: nat, ghost q0: seq<nat>, ghost act0: Word)
      returns (prev': int, ghost n': nat)
      requires At(i, w, prev, n, q0, act0) && n < |lines[i]| && x == lines[i][n]
      modifies handlers, next, act, this`lines
      ensures At(i, w, prev', n', q0, act0) && |lines[i]| - n' < |old(lines)[i]| - n
      ensures lines == old(lines)[i := lines[i]] && act[..] == old(act[..])[i := act[i]]
    {
      prev', n' := prev, n;
      if id[x] == w {
        RoundTake(i, w, prev, x, n, q0, act0);
      } else {
        prev', n' := x, n + 1;
      }
    }

    /** One round, and on to the next hook. */
    method RoundOn(i: nat, w: Word, prev: int, x: nat, ghost n: nat, ghost q0: seq<nat>, ghost act0: Word)
      returns (prev': int, x': int, ghost n': nat)
      requires At(i, w, prev, n, q0, act0) && n < |lines[i]| && x == lines[i][n]
      modifies handlers, next, act, this`lines
      ensures At(i, w, prev', n', q0, act0) && |lines[i]| - n' < |old(lines)[i]| - n
      ensures x' == if n' < |lines[i]| then lines[i][n'] else NULL
      ensures lines == old(lines)[i := lines[i]] && act[..] == old(act[..])[i := act[i]]
    {
      prev', n' := Round(i, w, prev, x, n, q0, act0);
      x' := After(i, prev', n');
    }

    /** The loop of rm_irq_handler. */
    method TakeHooks(i: nat, w: Word)
      requires Valid() && i < |lines| && Chains(Abs()) && Disjoint(lines) && NoDuplicates(lines[i])
      modifies handlers, next, act, this`lines
      ensures Valid() && Within(old(lines)[i], id.Length)
      ensures lines == old(lines)[i := Drop(id[..], old(lines)[i], w)]
      ensures act[..] == old(act[..])[i := if lines[i] == old(lines)[i] then old(act[i]) else old(act[i]) - w]
    {
      ghost var q0, act0 := lines[i], act[i];
      ghost var n: nat := 0;
      assert Within(q0, id.Length);
      var prev := NULL;
      var x := After(i, prev, n);
      while x != NULL
        invariant At(i, w, prev, n, q0, act0) && x == if n < |lines[i]| then lines[i][n] else NULL
        invariant lines == old(lines)[i := lines[i]] && act[..] == old(act[..])[i := act[i]]
        decreases |lines[i]| - n
      {
        prev, x, n := RoundOn(i, w, prev, x, n, q0, act0);
      }
      RemovingDone(id[..], lines[i], act[i], w, q0, act0);
    }

    /** rm_irq_handler */
    method Remove(h: nat)
      requires Valid() && Inv(Abs()) && Enabled(Abs(), RemoveHook(h))
      modifies next, handlers, act, masked, this`lines
      ensures Valid() && Chains(old(Abs())) && Abs() == Irq.Remove(old(Abs()), h)
    {
      InvChains(Abs());
      InvDisjoint(Abs());
      var i := irq[h];
      TakeHooks(i, id[h]);
      assert LinkedAt(i);
      if handlers[i] == NULL {
        masked[i] := true;
      } else if act[i] == {} {
        masked[i] := false;
      }
    }

    /** The calls of the handlers; those of the hooks in `yes` return true. */
    method Poll(i: nat, yes: set<nat>)
      requires Valid() && i < |lines| && Chains(Abs())
      modifies act
      ensures act[..] == old(act[..])[i := Polled(id[..], lines[i], old(act[i]), yes)]
    {
      ghost var q, n := lines[i], 0;
      assert LinkedAt(i) && Within(q, id.Length);
      assert q[0..] == q;
      var x := handlers[i];
      while x != NULL
        invariant 0 <= n <= |q| && x == (if n < |q| then q[n] else NULL)
        invariant act[..] == old(act[..])[i := act[i]]
        invariant Polled(id[..], q[n..], act[i], yes) == Polled(id[..], q, old(act[i]), yes)
        decreases |q| - n
      {
        assert q[n..][0] == x && q[n..][1..] == q[n + 1..];
        act[i] := act[i] + id[x];
        if x in yes { act[i] := act[i] - id[x]; }
        x := next[x];
        n := n + 1;
      }
    }

    /** irq_handle */
    method Handle(i: nat, yes: set<nat>)
      requires Valid() && Inv(Abs()) && Enabled(Abs(), Interrupt(i, yes))
      modifies act, masked
      ensures Valid() && Chains(old(Abs())) && Abs() == Irq.Handle(old(Abs()), i, yes)
    {
      InvChains(Abs());
      assert LinkedAt(i);
      masked[i] := true;
      if handlers[i] == NULL { return; }
      Poll(i, yes);
      if act[i] == {} { masked[i] := false; }
    }

    /** enable_irq */
    method EnableIrq(h: nat)
      requires Valid() && h < irq.Length && Abs().Line(irq[h])
      modifies act, masked
      ensures Valid() && Abs() == Enable(old(Abs()), h)
    {
      var i := irq[h];
      act[i] := act[i] - id[h];
      if act[i] == {} { masked[i] := false; }
    }

    /** disable_irq: whether the hook was enabled before. */
    method DisableIrq(h: nat) returns (was: bool)
      requires Valid() && h < irq.Length && Abs().Line(irq[h])
      modifies act, masked
      ensures Valid() && (Abs(), was) == Disable(old(Abs()), h)
    {
      var i := irq[h];
      if act[i] * id[h] != {} { return false; }
      act[i] := act[i] + id[h];
      masked[i] := true;
      return true;
    }

    /** Every operation keeps the chains, and the invariant of the lines unless it upsets it. */
    method Perform(step: Step)
      requires Valid() && Inv(Abs()) && Possible(Abs(), step)
      modifies next, irq, id, handlers, act, masked, this`lines
      ensures Valid() && Chains(old(Abs())) && Abs() == Apply(old(Abs()), step)
      ensures Inv(Abs()) <==> !Upsets(old(Abs()), step)
    {
      InvChains(Abs());
      KeptExactly(Abs(), step);
      match step
      case PutHook(h, i) => var _ := Put(h, i);
      case RemoveHook(h) => Remove(h);
      case Interrupt(i, yes) => Handle(i, yes);
      case EnableHook(h) => EnableIrq(h);
      case DisableHook(h) => var _ := DisableIrq(h);
    }
  }

  lemma InvDisjoint(s: Irqs)
    requires Inv(s)
    ensures Disjoint(s.lines) && forall i :: 0 <= i < |s.lines| ==> NoDuplicates(s.lines[i])
  {
    forall i | 0 <= i < |s.lines| ensures NoDuplicates(s.lines[i]) { assert Ids(s, i); }
    forall a, b, x | 0 <= a < |s.lines| && 0 <= b < |s.lines| && x in s.lines[a] && x in s.lines[b] ensures a == b {
      assert Ids(s, a) && Ids(s, b);
    }
  }
}
