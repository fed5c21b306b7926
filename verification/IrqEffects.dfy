/** What the operations on interrupt hooks do: whose id, place and activity they change. */
module IrqEffects {
  import opened Lists
  import opened Words
  import opened Irq

  /** The hook keeps its line from being open. */
  predicate Active(s: Irqs, h: nat)
    requires s.Shape()
  {
    h < |s.irq| && s.Line(s.irq[h]) && s.id[h] * s.act[s.irq[h]] != {}
  }

  /** Every hook other than `h` is where it was, has the id it had, and is active if it was. */
  ghost predicate Others(s: Irqs, t: Irqs, h: nat)
    requires s.Shape()
  {
    && t.Shape() && |t.irq| == |s.irq| && |t.lines| == |s.lines|
    && (forall g :: 0 <= g < |s.irq| && g != h ==> t.irq[g] == s.irq[g] && t.id[g] == s.id[g])
    && (forall g: nat :: s.Registered(g) && g != h ==> t.Registered(g) && Active(t, g) == Active(s, g))
  }

  /** Two hooks of a line have no bit in common. */
  lemma Apart(s: Irqs, h: nat, g: nat)
    requires Inv(s) && s.Registered(h) && s.Registered(g) && g != h && s.irq[g] == s.irq[h]
    ensures s.id[h] !! s.id[g]
  {
    assert Ids(s, s.irq[h]);
    Disjointed(s, s.irq[h]);
  }

  lemma HasId(s: Irqs, h: nat)
    requires Inv(s) && s.Registered(h)
    ensures s.id[h] != {}
  {
    assert Ids(s, s.irq[h]);
  }

  /** enable_irq: the hook is no longer active, and nobody else's activity changes. */
  lemma EnableEffect(s: Irqs, h: nat)
    requires Inv(s) && s.Registered(h)
    ensures var t := Enable(s, h); !Active(t, h) && Others(s, t, h) && t.lines == s.lines
  {
    var t := Enable(s, h);
    forall g: nat | s.Registered(g) && g != h ensures t.Registered(g) && Active(t, g) == Active(s, g) {
      if s.irq[g] == s.irq[h] {
        Apart(s, h, g);
        assert s.id[g] * t.act[s.irq[h]] == s.id[g] * s.act[s.irq[h]];
      }
    }
  }

  /** disable_irq says whether the hook was not active before; it is active afterwards, and the line closed. */
  lemma DisableEffect(s: Irqs, h: nat)
    requires Inv(s) && s.Registered(h)
    ensures var (t, changed) := Disable(s, h);
      && (changed <==> !Active(s, h)) && (!changed ==> t == s)
      && Active(t, h) && Others(s, t, h) && t.lines == s.lines && t.masked[s.irq[h]]
  {
    var i, t := s.irq[h], Disable(s, h).0;
    assert Mask(s, i);
    HasId(s, h);
    if !Active(s, h) { assert s.id[h] * t.act[i] == s.id[h]; }
    forall g: nat | s.Registered(g) && g != h ensures t.Registered(g) && Active(t, g) == Active(s, g) {
      if s.irq[g] == i {
        Apart(s, h, g);
        assert s.id[g] * t.act[i] == s.id[g] * s.act[i];
      }
    }
  }

  /** put_irq_handler: the hook is last on its line, with the lowest id that no other hook of the line has, and
      not active; the other hooks and lines stay. */
  lemma PutEffect(s: Irqs, h: nat, i: nat)
    requires Inv(s) && Chains(s) && Enabled(s, PutHook(h, i))
    ensures var (t, r) := Put(s, h, i);
      && (r == AlreadyThere <==> h in s.lines[i]) && (r == TooMany <==> h !in s.lines[i] && |s.lines[i]| == BITS)
      && if r != Done then t == s
         else t.lines == s.lines[i := s.lines[i] + [h]] && Others(s, t, h) && t.irq[h] == i && Lowest(s, i, t.id[h]) && !Active(t, h)
  {
    var (t, r) := Put(s, h, i);
    TooManyExact(s, h, i);
    if r == Done {
      DetachNothing(s, h, i);
      PutLowest(s, h, i);
      forall g: nat | s.Registered(g) && g != h ensures t.Registered(g) && Active(t, g) == Active(s, g) {
        if s.irq[g] == i { PutSpares(s, h, i, g); }
      }
    }
  }

  /** `w` is the lowest bit that is not the id of a hook of line `i`. */
  ghost predicate Lowest(s: Irqs, i: nat, w: Word)
    requires s.Shape() && s.Line(i)
  {
    exists b :: 0 <= b < BITS && w == {b} && !Has(s, i, b) && forall j :: 0 <= j < b ==> Has(s, i, j)
  }

  ghost predicate Has(s: Irqs, i: nat, b: int)
    requires s.Shape() && s.Line(i)
  {
    exists g :: g in s.lines[i] && g < |s.id| && s.id[g] == {b}
  }

  lemma PutLowest(s: Irqs, h: nat, i: nat)
    requires Inv(s) && Chains(s) && s.Line(i) && h < |s.irq| && Put(s, h, i).1 == Done
    ensures Lowest(s, i, Put(s, h, i).0.id[h])
  {
    var used := InUse(s.id, s.lines[i]);
    FreeIdExact(used, 0);
    assert Ids(s, i);
    forall b: int ensures b in used <==> Has(s, i, b) { UsedBy(s, i, b); }
  }

  lemma PutSpares(s: Irqs, h: nat, i: nat, g: nat)
    requires Inv(s) && Chains(s) && Enabled(s, PutHook(h, i)) && Put(s, h, i).1 == Done
    requires s.Registered(g) && g != h && s.irq[g] == i
    ensures Active(Put(s, h, i).0, g) == Active(s, g)
  {
    var t, w := Put(s, h, i).0, FreeId(InUse(s.id, s.lines[i]), 0);
    FreshId(s, i, g);
    FreeIdExact(InUse(s.id, s.lines[i]), 0);
    assert Ids(s, i) && Single(s.id[g]);
    assert s.id[g] * (s.act[i] - w) == s.id[g] * s.act[i];
  }

  /** rm_irq_handler of a registered hook: it is gone from its line, is not active, and nobody else's activity or
      order changes. */
  lemma RemoveEffect(s: Irqs, h: nat)
    requires Inv(s) && Chains(s) && s.Registered(h)
    ensures var t := Remove(s, h);
      t.lines == s.lines[s.irq[h] := Without(s.lines[s.irq[h]], h)] && !t.Registered(h) && !Active(t, h) && Others(s, t, h)
  {
    var i, t := s.irq[h], Remove(s, h);
    assert Ids(s, i);
    RemovesItself(s, h);
    WithoutMembers(s.lines[i], h);
    forall g: nat | s.Registered(g) && g != h ensures t.Registered(g) && Active(t, g) == Active(s, g) {
      if s.irq[g] == i {
        Apart(s, h, g);
        assert s.id[g] * t.act[i] == s.id[g] * s.act[i];
      }
    }
  }
}
