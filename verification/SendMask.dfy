/** The send masks of the privilege structures and the way they are filled. */
module SendMask {
  import opened SysMap
  import opened Words

  /** The trap number of RECEIVE. */
  const RECEIVE: int := 2

  class Masks {
    const ipcTo: array<Map>               // s_ipc_to
    const inUse: array<bool>              // whether the structure has a process
    const traps: array<Word>              // s_trap_mask

    constructor (masks: seq<Map>, used: seq<bool>, allowed: seq<Word>)
      requires |masks| == |used| == |allowed| == NR_SYS_PROCS && forall x :: 0 <= x < NR_SYS_PROCS ==> IsMap(masks[x])
      ensures Valid() && ipcTo[..] == masks && inUse[..] == used && traps[..] == allowed
      ensures fresh(ipcTo) && fresh(inUse) && fresh(traps)
    {
      ipcTo := new Map[|masks|](i requires 0 <= i < |masks| => masks[i]);
      inUse := new bool[|used|](i requires 0 <= i < |used| => used[i]);
      traps := new Word[|allowed|](i requires 0 <= i < |allowed| => allowed[i]);
    }

    ghost predicate Valid()
      reads ipcTo
    {
      && ipcTo.Length == inUse.Length == traps.Length == NR_SYS_PROCS
      && forall x :: 0 <= x < NR_SYS_PROCS ==> IsMap(ipcTo[x])
    }

    /** `x` may send to `y`. */
    predicate May(x: nat, y: nat)
      requires Valid() && x < NR_SYS_PROCS && y < NR_SYS_PROCS
      reads ipcTo
    {
      Get(ipcTo[x], y)
    }

    /** `x` has a trap other than RECEIVE. */
    predicate CanReply(x: nat)
      requires x < traps.Length
      reads traps
    {
      traps[x] - {RECEIVE} != {}
    }

    method PutMap(x: nat, m: Map)
      requires Valid() && x < NR_SYS_PROCS && IsMap(m)
      modifies ipcTo
      ensures Valid() && ipcTo[..] == old(ipcTo[..])[x := m]
    {
      ipcTo[x] := m;
    }

    /** set_sendto_bit. Both directions are opened, unless the other side cannot send anyway. */
    method SetSendto(rp: nat, id: nat)
      requires Valid() && rp < NR_SYS_PROCS && id < NR_SYS_PROCS
      modifies ipcTo
      ensures Valid()
      ensures forall x, y :: 0 <= x < NR_SYS_PROCS && 0 <= y < NR_SYS_PROCS ==>
        (May(x, y) <==>
          if x == rp && y == id then inUse[id] && rp != id
          else old(May(x, y)) || (x == id && y == rp && inUse[id] && CanReply(id)))
    {
      if !inUse[id] || rp == id {
        PutMap(rp, Unset(ipcTo[rp], id));
        return;
      }
      PutMap(rp, Set(ipcTo[rp], id));
      if CanReply(id) { PutMap(id, Set(ipcTo[id], rp)); }
    }

    /** unset_sendto_bit. Both directions are closed. */
    method UnsetSendto(rp: nat, id: nat)
      requires Valid() && rp < NR_SYS_PROCS && id < NR_SYS_PROCS
      modifies ipcTo
      ensures Valid()
      ensures forall x, y :: 0 <= x < NR_SYS_PROCS && 0 <= y < NR_SYS_PROCS ==>
        (May(x, y) <==> old(May(x, y)) && !(x == rp && y == id) && !(x == id && y == rp))
    {
      PutMap(rp, Unset(ipcTo[rp], id));
      PutMap(id, Unset(ipcTo[id], rp));
    }

    /** Whether `x` may send to the process after the round for `x`, if `before` says whether it could. */
    predicate Back(wanted: Map, x: nat, before: bool)
      requires IsMap(wanted) && x < NR_SYS_PROCS && inUse.Length == traps.Length == NR_SYS_PROCS
      reads inUse, traps
    {
      Get(wanted, x) && (before || (inUse[x] && CanReply(x)))
    }

    /** fill_sendto_mask: afterwards `rp` may send to exactly the ids of `wanted` that have a process,
        other than its own, permission is mutual with everyone who can reply, who cannot reply gains
        nothing, and nothing changes between others. */
    method FillSendtoMask(rp: nat, wanted: Map)
      requires Valid() && rp < NR_SYS_PROCS && IsMap(wanted)
      modifies ipcTo
      ensures Valid()
      ensures forall y :: 0 <= y < NR_SYS_PROCS ==> (May(rp, y) <==> Get(wanted, y) && inUse[y] && y != rp)
      ensures forall x :: 0 <= x < NR_SYS_PROCS && x != rp ==> (May(x, rp) <==> Back(wanted, x, old(May(x, rp))))
      ensures forall x, y :: 0 <= x < NR_SYS_PROCS && 0 <= y < NR_SYS_PROCS && x != rp && y != rp ==>
        (May(x, y) <==> old(May(x, y)))
      ensures forall x :: 0 <= x < NR_SYS_PROCS && x != rp && inUse[x] && CanReply(x) ==> (May(rp, x) <==> May(x, rp))
      ensures forall x :: 0 <= x < NR_SYS_PROCS && x != rp && !CanReply(x) && May(x, rp) ==> old(May(x, rp))
    {
      var i := 0;
      while i < NR_SYS_PROCS
        invariant 0 <= i <= NR_SYS_PROCS && Valid()
        invariant forall y :: 0 <= y < i ==> (May(rp, y) <==> Get(wanted, y) && inUse[y] && y != rp)
        invariant forall x :: 0 <= x < i && x != rp ==> (May(x, rp) <==> Back(wanted, x, old(May(x, rp))))
        invariant forall x :: i <= x < NR_SYS_PROCS && x != rp ==> (May(x, rp) <==> old(May(x, rp)))
        invariant forall x, y :: 0 <= x < NR_SYS_PROCS && 0 <= y < NR_SYS_PROCS && x != rp && y != rp ==>
          (May(x, y) <==> old(May(x, y)))
      {
        if Get(wanted, i) { SetSendto(rp, i); } else { UnsetSendto(rp, i); }
        i := i + 1;
      }
    }
  }
}
