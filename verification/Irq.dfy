/** Interrupt lines shared by several hooks, on values. */
module Irq {
  import opened Lists
  import opened Words

  /** For every hook its line and id, whether it is registered or not; for every line its chain of
      hooks, the ids of the active hooks, and whether the controller masks it. */
  datatype Irqs = Irqs(irq: seq<int>, id: seq<Word>, lines: seq<seq<nat>>, act: seq<Word>, masked: seq<bool>) {
    predicate Shape() { |irq| == |id| && |lines| == |act| == |masked| }
    predicate Line(i: int) { 0 <= i < |lines| }
    predicate Registered(h: nat) { h < |irq| && Line(irq[h]) && h in lines[irq[h]] }
  }

  datatype Outcome = Done | AlreadyThere | TooMany

  ghost predicate Within(q: seq<nat>, n: nat) { forall j :: 0 <= j < |q| ==> q[j] < n }

  // ---------------------------------------------------------------- operations

  /** The ids of the hooks of `q`. */
  function InUse(id: seq<Word>, q: seq<nat>): (w: Word)
    requires Within(q, |id|)
  {
    if q == [] then {} else id[q[0]] + InUse(id, q[1..])
  }

  /** The lowest id from bit `k` on that is not in `used`, or no bit at all. */
  function FreeId(used: Word, k: nat): Word
    decreases BITS - k
  {
    if k >= BITS then {} else if k !in used then {k} else FreeId(used, k + 1)
  }

  ghost predicate Chains(s: Irqs) {
    s.Shape() && forall i :: 0 <= i < |s.lines| ==> Within(s.lines[i], |s.irq|)
  }

  /** Clearing the link of `h` ends every chain that it is on. */
  function Detach(lines: seq<seq<nat>>, h: nat): (r: seq<seq<nat>>)
    ensures |r| == |lines| && forall j :: 0 <= j < |r| ==> r[j] == UpTo(lines[j], h)
  {
    seq(|lines|, j requires 0 <= j < |lines| => UpTo(lines[j], h))
  }

  /** put_irq_handler; TooMany stands for the panic. A hook that is on another line ends the chain of that
      line. */
  function Put(s: Irqs, h: nat, i: nat): (r: (Irqs, Outcome))
    requires Chains(s) && s.Line(i) && h < |s.irq|
  {
    if h in s.lines[i] then (s, AlreadyThere)
    else
      var id := FreeId(InUse(s.id, s.lines[i]), 0);
      if id == {} then (s, TooMany)
      else
        var act := s.act[i] - id;
        (s.(irq := s.irq[h := i], id := s.id[h := id], lines := Detach(s.lines, h)[i := s.lines[i] + [h]],
            act := s.act[i := act], masked := if act == {} then s.masked[i := false] else s.masked),
         Done)
  }

  /** `q` without the hooks that have the id `w`. */
  function Drop(id: seq<Word>, q: seq<nat>, w: Word): (r: seq<nat>)
    requires Within(q, |id|)
    ensures forall h :: h in r <==> h in q && id[h] != w
  {
    if q == [] then []
    else if id[q[0]] == w then Drop(id, q[1..], w)
    else [q[0]] + Drop(id, q[1..], w)
  }

  /** rm_irq_handler. It goes by the id that the hook has or once had. */
  function Remove(s: Irqs, h: nat): Irqs
    requires Chains(s) && h < |s.irq| && s.Line(s.irq[h])
  {
    var i, w := s.irq[h], s.id[h];
    var q := Drop(s.id, s.lines[i], w);
    var act := if q == s.lines[i] then s.act[i] else s.act[i] - w;
    s.(lines := s.lines[i := q], act := s.act[i := act],
       masked := if q == [] then s.masked[i := true] else if act == {} then s.masked[i := false] else s.masked)
  }

  /** The active ids after the handlers of `q` had their say; those in `yes` return true. */
  function Polled(id: seq<Word>, q: seq<nat>, act: Word, yes: set<nat>): Word
    requires Within(q, |id|)
  {
    if q == [] then act
    else Polled(id, q[1..], if q[0] in yes then (act + id[q[0]]) - id[q[0]] else act + id[q[0]], yes)
  }

  /** irq_handle */
  function Handle(s: Irqs, i: nat, yes: set<nat>): Irqs
    requires Chains(s) && s.Line(i)
  {
    if s.lines[i] == [] then s.(masked := s.masked[i := true])
    else
      var act := Polled(s.id, s.lines[i], s.act[i], yes);
      s.(act := s.act[i := act], masked := s.masked[i := act != {}])
  }

  /** enable_irq */
  function Enable(s: Irqs, h: nat): Irqs
    requires s.Shape() && h < |s.irq| && s.Line(s.irq[h])
  {
    var i := s.irq[h];
    var act := s.act[i] - s.id[h];
    s.(act := s.act[i := act], masked := if act == {} then s.masked[i := false] else s.masked)
  }

  /** disable_irq */
  function Disable(s: Irqs, h: nat): (Irqs, bool)
    requires s.Shape() && h < |s.irq| && s.Line(s.irq[h])
  {
    var i := s.irq[h];
    if s.act[i] * s.id[h] != {} then (s, false)
    else (s.(act := s.act[i := s.act[i] + s.id[h]], masked := s.masked[i := true]), true)
  }

  // ---------------------------------------------------------------- the invariant

  /** The hooks of a line belong to it and have ids of one bit each, all different. */
  ghost predicate Ids(s: Irqs, i: nat)
    requires s.Shape() && s.Line(i)
  {
    && NoDuplicates(s.lines[i])
    && (forall h :: h in s.lines[i] ==> h < |s.irq| && s.irq[h] == i && Single(s.id[h]))
    && (forall h, g :: h in s.lines[i] && g in s.lines[i] && h != g ==> s.id[h] != s.id[g])
  }

  /** Only hooks of the line are active, and the line is open exactly if it has a hook and none
      of them is active. */
  ghost predicate Mask(s: Irqs, i: nat)
    requires s.Shape() && s.Line(i)
  {
    && (forall k :: k in s.act[i] ==> exists h :: h in s.lines[i] && h < |s.id| && s.id[h] == {k})
    && (!s.masked[i] <==> s.lines[i] != [] && s.act[i] == {})
  }

  ghost predicate Inv(s: Irqs) {
    s.Shape() && forall i :: 0 <= i < |s.lines| ==> Ids(s, i) && Mask(s, i)
  }

  lemma InvChains(s: Irqs)
    requires Inv(s)
    ensures Chains(s)
  {
    forall i | 0 <= i < |s.lines| ensures Within(s.lines[i], |s.irq|) {
      assert Ids(s, i);
      forall j | 0 <= j < |s.lines[i]| ensures s.lines[i][j] < |s.irq| { assert s.lines[i][j] in s.lines[i]; }
    }
  }

  datatype Step =
    | PutHook(h: nat, i: nat)
    | RemoveHook(h: nat)
    | Interrupt(i: nat, yes: set<nat>)
    | EnableHook(h: nat)
    | DisableHook(h: nat)

  /** A hook is put on a line only while it is on no other, and enabled or disabled only while it
      is registered. A hook may be removed whenever it has been on a line. */
  predicate Enabled(s: Irqs, step: Step) {
    match step
    case PutHook(h, i) => h < |s.irq| && s.Line(i) && (s.Registered(h) ==> s.irq[h] == i)
    case RemoveHook(h) => h < |s.irq| && s.Line(s.irq[h])
    case Interrupt(i, yes) => s.Line(i)
    case EnableHook(h) => s.Registered(h)
    case DisableHook(h) => s.Registered(h)
  }

  ghost function Apply(s: Irqs, step: Step): Irqs
    requires Chains(s) && Possible(s, step)
  {
    match step
    case PutHook(h, i) => Put(s, h, i).0
    case RemoveHook(h) => Remove(s, h)
    case Interrupt(i, yes) => Handle(s, i, yes)
    case EnableHook(h) => Enable(s, h)
    case DisableHook(h) => Disable(s, h).0
  }

  lemma OtherLines(s: Irqs, t: Irqs, i: nat)
    requires Inv(s) && t.Shape() && |t.lines| == |s.lines| && s.Line(i) && |t.irq| == |s.irq|
    requires forall j :: 0 <= j < |s.lines| && j != i ==>
      t.lines[j] == s.lines[j] && t.act[j] == s.act[j] && t.masked[j] == s.masked[j]
    requires forall j, h :: 0 <= j < |s.lines| && j != i && h in s.lines[j] ==>
      h < |s.irq| && t.irq[h] == s.irq[h] && t.id[h] == s.id[h]
    requires Ids(t, i) && Mask(t, i)
    ensures Inv(t)
  {
    forall j | 0 <= j < |t.lines| && j != i ensures Ids(t, j) && Mask(t, j) {
      assert Ids(s, j) && Mask(s, j);
      forall k | k in t.act[j] ensures exists h :: h in t.lines[j] && h < |t.id| && t.id[h] == {k} {
        var h :| h in s.lines[j] && h < |s.id| && s.id[h] == {k};
        assert t.id[h] == {k};
      }
    }
  }

  lemma {:induction false} FreeIdExact(used: Word, k: nat)
    ensures var w := FreeId(used, k);
      if w == {} then forall j :: k <= j < BITS ==> j in used
      else exists b :: k <= b < BITS && w == {b} && b !in used && forall j :: k <= j < b ==> j in used
    decreases BITS - k
  {
    if k < BITS && k in used { FreeIdExact(used, k + 1); }
  }

  lemma {:induction false} InUseMember(id: seq<Word>, q: seq<nat>, k: int)
    requires Within(q, |id|)
    ensures k in InUse(id, q) <==> exists h :: h in q && k in id[h]
  {
    if q != [] { InUseMember(id, q[1..], k); }
  }

  lemma FreshId(s: Irqs, i: nat, g: nat)
    requires Inv(s) && s.Line(i) && g in s.lines[i] && Chains(s)
    ensures s.id[g] != FreeId(InUse(s.id, s.lines[i]), 0)
  {
    assert Ids(s, i);
    FreeIdExact(InUse(s.id, s.lines[i]), 0);
    var k :| 0 <= k < BITS && s.id[g] == {k};
    InUseMember(s.id, s.lines[i], k);
  }

  lemma DetachNothing(s: Irqs, h: nat, i: nat)
    requires Inv(s) && Enabled(s, PutHook(h, i)) && h !in s.lines[i]
    ensures Detach(s.lines, h) == s.lines
  {
    forall j | 0 <= j < |s.lines| ensures h !in s.lines[j] { assert Ids(s, j); }
  }

  lemma PutKeeps(s: Irqs, h: nat, i: nat)
    requires Inv(s) && Enabled(s, PutHook(h, i)) && Chains(s)
    ensures Inv(Put(s, h, i).0)
  {
    var (t, r) := Put(s, h, i);
    if r == Done {
      assert Ids(s, i) && Mask(s, i);
      DetachNothing(s, h, i);
      var id := FreeId(InUse(s.id, s.lines[i]), 0);
      FreeIdExact(InUse(s.id, s.lines[i]), 0);
      AddedMembers(s.lines[i], h);
      forall g | g in s.lines[i] ensures g != h && s.id[g] != id && t.id[g] == s.id[g] { FreshId(s, i, g); }
      forall k | k in t.act[i] ensures exists g :: g in t.lines[i] && g < |t.id| && t.id[g] == {k} {
        var g :| g in s.lines[i] && g < |s.id| && s.id[g] == {k};
        assert g in t.lines[i] && t.id[g] == {k};
      }
      forall j, g | 0 <= j < |s.lines| && j != i && g in s.lines[j]
        ensures g < |s.irq| && t.irq[g] == s.irq[g] && t.id[g] == s.id[g]
      {
        assert Ids(s, j);
      }
      OtherLines(s, t, i);
    }
  }

  /** Leaving out by id takes exactly the hook with that id. */
  lemma {:induction false} DropIsWithout(id: seq<Word>, q: seq<nat>, h: nat)
    requires Within(q, |id|) && NoDuplicates(q) && h < |id|
    requires forall g :: g in q ==> (id[g] == id[h] <==> g == h)
    ensures Drop(id, q, id[h]) == Without(q, h)
  {
    if q != [] {
      if q[0] == h {
        assert h !in q[1..];
        DropNothing(id, q[1..], id[h]);
      } else {
        DropIsWithout(id, q[1..], h);
      }
    }
  }

  lemma {:induction false} DropNothing(id: seq<Word>, q: seq<nat>, w: Word)
    requires Within(q, |id|) && forall g :: g in q ==> id[g] != w
    ensures Drop(id, q, w) == q
  {
    if q != [] { DropNothing(id, q[1..], w); }
  }

  lemma {:induction false} DropNoDuplicates(id: seq<Word>, q: seq<nat>, w: Word)
    requires Within(q, |id|) && NoDuplicates(q)
    ensures NoDuplicates(Drop(id, q, w))
  {
    if q != [] {
      DropNoDuplicates(id, q[1..], w);
      assert q[0] !in q[1..];
    }
  }

  /** Whatever hook is removed, the invariant holds afterwards. */
  lemma RemoveKeeps(s: Irqs, h: nat)
    requires Inv(s) && Chains(s) && h < |s.irq| && s.Line(s.irq[h])
    ensures Inv(Remove(s, h))
  {
    var i, w, t := s.irq[h], s.id[h], Remove(s, h);
    assert Ids(s, i) && Mask(s, i);
    DropNoDuplicates(s.id, s.lines[i], w);
    forall k | k in t.act[i] ensures exists g :: g in t.lines[i] && g < |t.id| && t.id[g] == {k} {
      var g :| g in s.lines[i] && g < |s.id| && s.id[g] == {k};
      assert g in t.lines[i];
    }
    forall j, g | 0 <= j < |s.lines| && j != i && g in s.lines[j] ensures g < |s.irq| { assert Ids(s, j); }
    OtherLines(s, t, i);
  }

  /** rm_irq_handler takes the hook itself, and nothing else, exactly if the hook is registered or
      its old id is not in use: the id may by now belong to another hook. */
  lemma RemovesItself(s: Irqs, h: nat)
    requires Inv(s) && Chains(s) && h < |s.irq| && s.Line(s.irq[h])
    ensures Remove(s, h).lines[s.irq[h]] == Without(s.lines[s.irq[h]], h) <==>
      s.Registered(h) || forall g :: g in s.lines[s.irq[h]] ==> s.id[g] != s.id[h]
  {
    var i := s.irq[h];
    var q := s.lines[i];
    assert Ids(s, i);
    if h in q {
      DropIsWithout(s.id, q, h);
    } else {
      WithoutAbsent(q, h);
      if forall g :: g in q ==> s.id[g] != s.id[h] {
        DropNothing(s.id, q, s.id[h]);
      } else {
        var g :| g in q && s.id[g] == s.id[h];
        assert g !in Drop(s.id, q, s.id[h]);
      }
    }
  }

  /** After the handlers of `q`, the active ids are those of the hooks whose handler said no. */
  lemma {:induction false} PolledExact(id: seq<Word>, q: seq<nat>, act: Word, yes: set<nat>, k: int)
    requires Within(q, |id|) && NoDuplicates(q)
    requires forall h, g :: h in q && g in q && h != g ==> id[h] !! id[g]
    ensures k in Polled(id, q, act, yes) <==>
      (exists h :: h in q && k in id[h] && h !in yes) || (k in act && forall h :: h in q ==> k !in id[h])
  {
    if q != [] {
      var next := if q[0] in yes then (act + id[q[0]]) - id[q[0]] else act + id[q[0]];
      assert q[0] !in q[1..];
      PolledExact(id, q[1..], next, yes, k);
    }
  }

  lemma Disjointed(s: Irqs, i: nat)
    requires s.Shape() && s.Line(i) && Ids(s, i)
    ensures forall h, g :: h in s.lines[i] && g in s.lines[i] && h != g ==> s.id[h] !! s.id[g]
  {
  }

  /** `h` is on `q`, has bit `k` and its handler said no. */
  ghost predicate SaysNo(id: seq<Word>, q: seq<nat>, yes: set<nat>, h: nat, k: int) {
    h in q && h < |id| && k in id[h] && h !in yes
  }

  lemma ActiveAfter(s: Irqs, i: nat, yes: set<nat>, k: int)
    requires Inv(s) && Chains(s) && s.Line(i)
    ensures k in Handle(s, i, yes).act[i] <==> exists h :: SaysNo(s.id, s.lines[i], yes, h, k)
  {
    assert Ids(s, i) && Mask(s, i);
    Disjointed(s, i);
    var q := s.lines[i];
    PolledExact(s.id, q, s.act[i], yes, k);
    if k in s.act[i] {
      var h :| h in q && h < |s.id| && s.id[h] == {k};
      assert k in s.id[h];
    }
    if h :| h in q && k in s.id[h] && h !in yes { assert SaysNo(s.id, q, yes, h, k); }
  }

  lemma HookAfter(s: Irqs, i: nat, yes: set<nat>, h: nat)
    requires Inv(s) && Chains(s) && s.Line(i) && h in s.lines[i]
    ensures var t := Handle(s, i, yes); (s.id[h] <= t.act[i] <==> h !in yes) && (s.id[h] !! t.act[i] <==> h in yes)
  {
    assert Ids(s, i);
    var k :| 0 <= k < BITS && s.id[h] == {k};
    ActiveAfter(s, i, yes, k);
    if h !in yes { assert SaysNo(s.id, s.lines[i], yes, h, k); }
    if g: nat :| SaysNo(s.id, s.lines[i], yes, g, k) { assert Single(s.id[g]) && s.id[g] == {k}; }
  }

  /** After an interrupt the active hooks of the line are exactly those whose handler said no,
      whatever was active before, and the line is open exactly if there are hooks and none said no. */
  lemma HandleExact(s: Irqs, i: nat, yes: set<nat>)
    requires Inv(s) && Chains(s) && s.Line(i)
    ensures var t := Handle(s, i, yes);
      && (forall h :: h in s.lines[i] ==> (s.id[h] <= t.act[i] <==> h !in yes) && (s.id[h] !! t.act[i] <==> h in yes))
      && (!t.masked[i] <==> s.lines[i] != [] && forall h :: h in s.lines[i] ==> h in yes)
  {
    assert Ids(s, i) && Mask(s, i);
    var q, t := s.lines[i], Handle(s, i, yes);
    forall h | h in q ensures (s.id[h] <= t.act[i] <==> h !in yes) && (s.id[h] !! t.act[i] <==> h in yes) {
      HookAfter(s, i, yes, h);
    }
    if forall h :: h in q ==> h in yes {
      forall k ensures k !in t.act[i] { ActiveAfter(s, i, yes, k); }
    }
    forall h | h in q ensures t.act[i] == {} ==> h in yes { assert s.id[h] !! t.act[i] <==> h in yes; }
  }

  lemma HandleKeeps(s: Irqs, i: nat, yes: set<nat>)
    requires Inv(s) && Chains(s) && s.Line(i)
    ensures Inv(Handle(s, i, yes))
  {
    var t := Handle(s, i, yes);
    assert Ids(s, i) && Mask(s, i);
    Disjointed(s, i);
    forall k | k in t.act[i] ensures exists h :: h in t.lines[i] && h < |t.id| && t.id[h] == {k} {
      PolledExact(s.id, s.lines[i], s.act[i], yes, k);
      if k !in s.act[i] || exists h :: h in s.lines[i] && k in s.id[h] && h !in yes {
        var h :| h in s.lines[i] && k in s.id[h] && h !in yes;
        assert s.id[h] == {k};
      }
    }
    forall j, g | 0 <= j < |s.lines| && j != i && g in s.lines[j] ensures g < |s.irq| { assert Ids(s, j); }
    OtherLines(s, t, i);
  }

  lemma SwitchKeeps(s: Irqs, h: nat)
    requires Inv(s) && s.Registered(h)
    ensures Inv(Enable(s, h)) && Inv(Disable(s, h).0)
  {
    var i := s.irq[h];
    assert Ids(s, i) && Mask(s, i);
    var t, u := Enable(s, h), Disable(s, h).0;
    var b :| 0 <= b < BITS && s.id[h] == {b};
    forall k | k in t.act[i] || k in u.act[i] ensures exists g :: g in s.lines[i] && g < |s.id| && s.id[g] == {k} {
      if k == b { assert s.id[h] == {k}; }
    }
    forall j, g | 0 <= j < |s.lines| && j != i && g in s.lines[j] ensures g < |s.irq| { assert Ids(s, j); }
    OtherLines(s, t, i);
    OtherLines(s, u, i);
  }

  lemma StepKeeps(s: Irqs, step: Step)
    requires Inv(s) && Chains(s) && Enabled(s, step)
    ensures Inv(Apply(s, step))
  {
    match step
    case PutHook(h, i) => PutKeeps(s, h, i);
    case RemoveHook(h) => RemoveKeeps(s, h);
    case Interrupt(i, yes) => HandleKeeps(s, i, yes);
    case EnableHook(h) => SwitchKeeps(s, h);
    case DisableHook(h) => SwitchKeeps(s, h);
  }

  /** No hook is on any line and all lines are masked. */
  ghost predicate Initial(s: Irqs) {
    s.Shape() && forall i :: 0 <= i < |s.lines| ==> s.lines[i] == [] && s.act[i] == {} && s.masked[i]
  }

  ghost predicate Leads(s: Irqs, step: Step, t: Irqs) {
    Chains(s) && Enabled(s, step) && t == Apply(s, step)
  }

  ghost predicate Run(states: seq<Irqs>, steps: seq<Step>) {
    && |states| == |steps| + 1 && Initial(states[0])
    && forall k :: 0 <= k < |steps| ==> Leads(states[k], steps[k], states[k + 1])
  }

  /** In every state of every run the ids on a line are different single bits, the active ids are
      among them, and the line is open exactly if it has hooks and none is active. */
  lemma {:induction false} RunsKeep(states: seq<Irqs>, steps: seq<Step>, k: nat)
    requires Run(states, steps) && k < |states|
    ensures Inv(states[k])
  {
    if k > 0 {
      var j := k - 1;
      RunsKeep(states, steps, j);
      assert Leads(states[j], steps[j], states[j + 1]);
      StepKeeps(states[j], steps[j]);
    }
  }

  // ---------------------------------------------------------------- hooks that are not registered

  /** What the source may be asked to do, with any hook that has a line. */
  predicate Possible(s: Irqs, step: Step) {
    match step
    case PutHook(h, i) => h < |s.irq| && s.Line(i)
    case RemoveHook(h) => h < |s.irq| && s.Line(s.irq[h])
    case Interrupt(i, yes) => s.Line(i)
    case EnableHook(h) => h < |s.irq| && s.Line(s.irq[h])
    case DisableHook(h) => h < |s.irq| && s.Line(s.irq[h])
  }

  /** A hook is moved from one line to another that has room; a line without hooks is enabled; or a line is
      disabled for an id that none of its hooks has, or for no id while it is open. */
  predicate Upsets(s: Irqs, step: Step)
    requires s.Shape() && Possible(s, step) && forall i :: 0 <= i < |s.lines| ==> Within(s.lines[i], |s.id|)
  {
    match step
    case PutHook(h, i) => s.Registered(h) && s.irq[h] != i && |s.lines[i]| < BITS
    case EnableHook(h) => s.lines[s.irq[h]] == []
    case DisableHook(h) =>
      var i, w := s.irq[h], s.id[h];
      s.act[i] * w == {} && (!(w <= InUse(s.id, s.lines[i])) || (w == {} && !s.masked[i]))
    case _ => false
  }

  lemma EnableExact(s: Irqs, h: nat)
    requires Inv(s) && h < |s.irq| && s.Line(s.irq[h])
    ensures Inv(Enable(s, h)) <==> s.lines[s.irq[h]] != []
  {
    var i, t := s.irq[h], Enable(s, h);
    assert Ids(s, i) && Mask(s, i);
    if s.lines[i] == [] {
      NoActive(s, i);
      assert !t.masked[i] && !Mask(t, i);
    } else {
      forall j, g | 0 <= j < |s.lines| && j != i && g in s.lines[j] ensures g < |s.irq| { assert Ids(s, j); }
      assert Ids(t, i) && Mask(t, i);
      OtherLines(s, t, i);
    }
  }

  lemma NoActive(s: Irqs, i: nat)
    requires s.Shape() && s.Line(i) && Mask(s, i) && s.lines[i] == []
    ensures s.act[i] == {}
  {
    forall k ensures k !in s.act[i] {}
  }

  /** An id is in use exactly if a hook of the line has it. */
  lemma UsedBy(s: Irqs, i: nat, k: int)
    requires s.Shape() && s.Line(i) && Chains(s) && Ids(s, i)
    ensures k in InUse(s.id, s.lines[i]) <==> exists g :: g in s.lines[i] && g < |s.id| && s.id[g] == {k}
  {
    InUseMember(s.id, s.lines[i], k);
    if g :| g in s.lines[i] && k in s.id[g] { assert Single(s.id[g]) && s.id[g] == {k}; }
    if g :| g in s.lines[i] && g < |s.id| && s.id[g] == {k} { assert k in s.id[g]; }
  }

  lemma IsSubset(w: Word, u: Word)
    requires forall k :: k in w ==> k in u
    ensures w <= u
  {
    forall k | k in w ensures k in u {}
  }

  lemma Missing(w: Word, u: Word) returns (k: int)
    requires !(w <= u)
    ensures k in w && k !in u
  {
    if forall j :: j in w ==> j in u { IsSubset(w, u); }
    k :| k in w && k !in u;
  }

  /** The line after a disable_irq that changed something. */
  lemma DisabledMask(s: Irqs, h: nat)
    requires s.Shape() && h < |s.irq| && s.Line(s.irq[h]) && Chains(s) && Mask(s, s.irq[h]) && Ids(s, s.irq[h])
    requires s.act[s.irq[h]] * s.id[h] == {}
    ensures Mask(Disable(s, h).0, s.irq[h]) <==> !Upsets(s, DisableHook(h))
  {
    var i, w, t := s.irq[h], s.id[h], Disable(s, h).0;
    if w == {} { assert t.act[i] == s.act[i]; }
    if w <= InUse(s.id, s.lines[i]) {
      forall k | k in t.act[i] ensures exists g :: g in t.lines[i] && g < |t.id| && t.id[g] == {k} {
        if k in w { UsedBy(s, i, k); }
      }
      if w != {} { NotEmpty(s.act[i], w); }
    } else {
      var k := Missing(w, InUse(s.id, s.lines[i]));
      UsedBy(s, i, k);
      assert k in t.act[i];
    }
  }

  lemma NotEmpty(a: Word, w: Word)
    requires w != {}
    ensures a + w != {}
  {
    assert w <= a + w;
  }

  lemma DisableExact(s: Irqs, h: nat)
    requires Inv(s) && Chains(s) && h < |s.irq| && s.Line(s.irq[h])
    ensures Inv(Disable(s, h).0) <==> !Upsets(s, DisableHook(h))
  {
    var i, t := s.irq[h], Disable(s, h).0;
    assert Ids(s, i) && Mask(s, i);
    if s.act[i] * s.id[h] == {} {
      DisabledMask(s, h);
      assert Ids(t, i);
      if Mask(t, i) {
        forall j, g | 0 <= j < |s.lines| && j != i && g in s.lines[j] ensures g < |s.irq| { assert Ids(s, j); }
        OtherLines(s, t, i);
      }
    }
  }

  lemma PutExact(s: Irqs, h: nat, i: nat)
    requires Inv(s) && Chains(s) && h < |s.irq| && s.Line(i)
    ensures Inv(Put(s, h, i).0) <==> !Upsets(s, PutHook(h, i))
  {
    var t := Put(s, h, i).0;
    TooManyExact(s, h, i);
    if s.Registered(h) && s.irq[h] != i {
      var j := s.irq[h];
      assert Ids(s, i) && h !in s.lines[i];
      if |s.lines[i]| < BITS { assert h in t.lines[j] && t.irq[h] == i && !Ids(t, j); }
    } else {
      PutKeeps(s, h, i);
    }
  }

  /** With any hooks at all, the invariant holds after a step exactly if the step does not upset it. */
  lemma KeptExactly(s: Irqs, step: Step)
    requires Inv(s) && Chains(s) && Possible(s, step)
    ensures Inv(Apply(s, step)) <==> !Upsets(s, step)
  {
    match step
    case PutHook(h, i) => PutExact(s, h, i);
    case RemoveHook(h) => RemoveKeeps(s, h);
    case Interrupt(i, yes) => HandleKeeps(s, i, yes);
    case EnableHook(h) => EnableExact(s, h);
    case DisableHook(h) => DisableExact(s, h);
  }

  // ---------------------------------------------------------------- a hook removed twice

  /** Two hooks, one line, and hook 0 put on it and removed. */
  function OncePut(): Irqs { Irqs([0, -1], [{0}, {}], [[]], [{}], [true]) }

  /** Then hook 1 gets the id that hook 0 had. */
  function PutAgain(): Irqs { Irqs([0, 0], [{0}, {0}], [[1]], [{}], [false]) }

  /** The first hook of a quiet line gets the lowest id. */
  lemma PutFirst(s: Irqs, h: nat)
    requires Chains(s) && |s.lines| == 1 && h < |s.irq| && s.lines[0] == [] && s.act[0] == {}
    ensures Put(s, h, 0) == (s.(irq := s.irq[h := 0], id := s.id[h := {0}], lines := s.lines[0 := [h]],
                                act := s.act[0 := {}], masked := s.masked[0 := false]), Done)
  {
    var none: Word := {};
    assert InUse(s.id, s.lines[0]) == none && FreeId(none, 0) == {0} && none - {0} == none;
    assert s.lines[0] + [h] == [h];
    var t := Put(s, h, 0).0;
    assert t.act == s.act[0 := {}] && t.lines == s.lines[0 := [h]];
  }

  lemma PutRemoved()
    ensures var s := Irqs([-1, -1], [{}, {}], [[]], [{}], [true]);
      && Initial(s) && Chains(s) && Put(s, 0, 0).1 == Done && Chains(Put(s, 0, 0).0)
      && Remove(Put(s, 0, 0).0, 0) == OncePut()
  {
    var s := Irqs([-1, -1], [{}, {}], [[]], [{}], [true]);
    var t := Put(s, 0, 0).0;
    PutFirst(s, 0);
    assert t.irq == [0, -1] && t.id == [{0}, {}] && t.lines == [[0]] && t.act == [{}] && t.masked == [false];
    assert Drop(t.id, [0], {0}) == [];
  }

  /** Removing a hook that is no longer registered takes another one: hook 0 is put and removed, hook 1 is
      put and gets its id, and removing hook 0 again removes hook 1. */
  lemma RemovesAnother()
    ensures var s := Irqs([-1, -1], [{}, {}], [[]], [{}], [true]);
      Run([s, Put(s, 0, 0).0, OncePut(), PutAgain()], [PutHook(0, 0), RemoveHook(0), PutHook(1, 0)])
    ensures PutAgain().lines[0] == [1] && !PutAgain().Registered(0)
    ensures Enabled(PutAgain(), RemoveHook(0)) && Chains(PutAgain()) && Remove(PutAgain(), 0).lines[0] == []
  {
    PutRemoved();
    var s := Irqs([-1, -1], [{}, {}], [[]], [{}], [true]);
    var states := [s, Put(s, 0, 0).0, OncePut(), PutAgain()];
    var steps := [PutHook(0, 0), RemoveHook(0), PutHook(1, 0)];
    PutFirst(OncePut(), 1);
    var t := Put(OncePut(), 1, 0).0;
    assert t.irq == [0, 0] && t.id == [{0}, {0}] && t.lines == [[1]] && t.act == [{}] && t.masked == [false];
    assert Leads(states[0], steps[0], states[1]);
    assert Leads(states[1], steps[1], states[2]);
    assert Leads(states[2], steps[2], states[3]);
    assert Drop(PutAgain().id, [1], {0}) == [];
  }

  // ---------------------------------------------------------------- how many hooks fit

  lemma {:induction false} OneBitEach(id: seq<Word>, q: seq<nat>)
    requires Within(q, |id|) && NoDuplicates(q) && (forall h :: h in q ==> Single(id[h]))
    requires forall h, g :: h in q && g in q && h != g ==> id[h] != id[g]
    ensures |InUse(id, q)| == |q| && IsWord(InUse(id, q))
  {
    if q != [] {
      var rest := q[1..];
      assert q[0] !in rest;
      OneBitEach(id, rest);
      var k :| 0 <= k < BITS && id[q[0]] == {k};
      InUseMember(id, rest, k);
      forall h | h in rest ensures k !in id[h] { assert h in q && Single(id[h]) && id[h] != {k}; }
    }
  }

  lemma {:induction false} FullWord(w: Word, n: nat)
    requires forall k :: k in w ==> 0 <= k < n
    ensures |w| <= n && (|w| == n <==> forall k :: 0 <= k < n ==> k in w)
  {
    if n > 0 {
      var v := w - {n - 1};
      FullWord(v, n - 1);
      if n - 1 in w { assert w == v + {n - 1}; } else { assert w == v; }
    } else {
      forall k ensures k !in w {}
      assert w == {};
    }
  }

  /** A line takes 32 hooks; put_irq_handler gives up exactly at the next one. */
  lemma TooManyExact(s: Irqs, h: nat, i: nat)
    requires Inv(s) && Chains(s) && s.Line(i) && h < |s.irq|
    ensures |s.lines[i]| <= BITS
    ensures Put(s, h, i).1 == TooMany <==> h !in s.lines[i] && |s.lines[i]| == BITS
  {
    assert Ids(s, i);
    var used := InUse(s.id, s.lines[i]);
    OneBitEach(s.id, s.lines[i]);
    FullWord(used, BITS);
    FreeIdExact(used, 0);
  }
}
