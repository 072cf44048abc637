/** The configuration holder's subscription slots (internal/config/config.go). */
module Holder {
  import opened Seqs

  /** The closure Subscribe returns: the slot it got, and whether its sync.Once has fired. */
  class Unsubscriber<F> {
    const fn: F
    const idx: nat
    var fired: bool

    constructor (fn: F, idx: nat)
      ensures this.fn == fn && this.idx == idx && !fired
    {
      this.fn, this.idx, fired := fn, idx, false;
    }
  }

  /** How many slots are taken. */
  function Taken<T>(slots: seq<Option<T>>): (n: nat)
    ensures n <= |slots|
  {
    if slots == [] then 0 else Taken(slots[..|slots| - 1]) + if slots[|slots| - 1].Some? then 1 else 0
  }

  lemma {:induction false} TakenAfter<T>(slots: seq<Option<T>>, i: nat, x: Option<T>)
    requires i < |slots|
    ensures Taken(slots[i := x]) == Taken(slots) - (if slots[i].Some? then 1 else 0) + (if x.Some? then 1 else 0)
  {
    var n := |slots| - 1;
    if i < n {
      TakenAfter(slots[..n], i, x);
      assert slots[i := x][..n] == slots[..n][i := x];
    } else {
      assert slots[i := x][..n] == slots[..n];
    }
  }

  lemma {:induction false} AllTaken<T>(slots: seq<Option<T>>)
    ensures (forall i :: 0 <= i < |slots| ==> slots[i].Some?) <==> Taken(slots) == |slots|
  {
    if slots != [] {
      var n := |slots| - 1;
      AllTaken(slots[..n]);
      assert forall i :: 0 <= i < n ==> slots[..n][i] == slots[i];
    }
  }

  lemma {:induction false} TakenSnoc<T>(slots: seq<Option<T>>, x: Option<T>)
    ensures Taken(slots + [x]) == Taken(slots) + if x.Some? then 1 else 0
  {
    assert (slots + [x])[..|slots|] == slots;
  }

  /** The callbacks in the taken slots, in slot order. */
  function Callbacks<T>(slots: seq<Option<T>>): seq<T> {
    if slots == [] then [] else Callbacks(slots[..|slots| - 1]) + Maybe(slots[|slots| - 1])
  }

  class Holder<C, F> {
    var current: C
    var subs: seq<Option<F>>

    /** Every closure handed out, who owns each slot, how many subscriptions are live now, and the most there
        ever were at once. */
    ghost var issued: set<Unsubscriber<F>>
    ghost var owners: seq<Option<Unsubscriber<F>>>
    ghost var live: nat
    ghost var peak: nat

    /** Each live subscription owns exactly one slot, its own; each taken slot has exactly one owner; and there
        are as many slots as there ever were live subscriptions at once. */
    ghost predicate Valid()
      reads this, issued
    {
      && |owners| == |subs|
      && (forall u :: u in issued ==> u.idx < |subs| && (!u.fired ==> owners[u.idx] == Some(u)))
      && (forall i :: 0 <= i < |subs| ==> (subs[i].Some? <==> owners[i].Some?))
      && (forall i :: 0 <= i < |subs| && owners[i].Some? ==>
            var u := owners[i].value; u in issued && !u.fired && u.idx == i && subs[i] == Some(u.fn))
      && live == Taken(subs) && peak == |subs|
    }

    constructor (initial: C)
      ensures Valid() && current == initial && subs == [] && issued == {} && live == peak == 0
    {
      current, subs := initial, [];
      issued, owners, live, peak := {}, [], 0, 0;
    }

    /** The search for a free slot. */
    method FindFree() returns (idx: Option<nat>)
      ensures idx.Some? ==> idx.value < |subs| && subs[idx.value].None?
      ensures forall i :: 0 <= i < (if idx.Some? then idx.value else |subs|) ==> subs[i].Some?
    {
      for i := 0 to |subs|
        invariant forall j :: 0 <= j < i ==> subs[j].Some?
      {
        if subs[i].None? {
          return Some(i);
        }
      }
      idx := None;
    }

    /** A free slot is given to a new subscription. */
    method Reuse(u: Unsubscriber<F>)
      requires Valid() && u !in issued && !u.fired && u.idx < |subs| && subs[u.idx].None?
      modifies this`subs, this`issued, this`owners, this`live
      ensures Valid() && subs == old(subs)[u.idx := Some(u.fn)]
      ensures issued == old(issued) + {u} && live == old(live) + 1 <= peak
    {
      TakenAfter(subs, u.idx, Some(u.fn));
      hide Taken;
      subs, owners := subs[u.idx := Some(u.fn)], owners[u.idx := Some(u)];
      issued, live := issued + {u}, live + 1;
    }

    /** With every slot taken a new one is added. */
    method Extend(u: Unsubscriber<F>)
      requires Valid() && u !in issued && !u.fired && u.idx == |subs| && live == |subs|
      modifies this`subs, this`issued, this`owners, this`live, this`peak
      ensures Valid() && subs == old(subs) + [Some(u.fn)]
      ensures issued == old(issued) + {u} && live == peak == old(live) + 1
    {
      TakenSnoc(subs, Some(u.fn));
      hide Taken;
      subs, owners := subs + [Some(u.fn)], owners + [Some(u)];
      issued, live, peak := issued + {u}, live + 1, peak + 1;
    }

    /** Subscribe. A nil callback gets a closure that does nothing, here none. */
    method Subscribe(fn: Option<F>) returns (u: Option<Unsubscriber<F>>)
      requires Valid()
      modifies this`subs, this`issued, this`owners, this`live, this`peak
      ensures Valid() && u.Some? == fn.Some?
      ensures fn.None? ==> subs == old(subs) && issued == old(issued) && live == old(live) && peak == old(peak)
      ensures fn.Some? ==>
                && fresh(u.value) && !u.value.fired && u.value.fn == fn.value
                && issued == old(issued) + {u.value}
                && live == old(live) + 1 && peak == (if live > old(peak) then live else old(peak))
                && (u.value.idx < |old(subs)| ==> old(subs)[u.value.idx].None?)
                && (forall i :: 0 <= i < u.value.idx && i < |old(subs)| ==> old(subs)[i].Some?)
                && subs == if u.value.idx < |old(subs)| then old(subs)[u.value.idx := fn] else old(subs) + [fn]
    {
      if fn.None? {
        return None;
      }
      AllTaken(subs);
      var free := FindFree();
      var closure := new Unsubscriber(fn.value, if free.Some? then free.value else |subs|);
      if free.Some? {
        Reuse(closure);
      } else {
        Extend(closure);
      }
      u := Some(closure);
    }

    /** The closure's call: the first one frees the slot it was given, any later one does nothing, even when the
        slot has been given to someone else since. */
    method Unsubscribe(u: Unsubscriber<F>)
      requires Valid() && u in issued
      modifies this`subs, this`owners, this`live, u
      ensures Valid() && u.fired
      ensures old(u.fired) ==> subs == old(subs) && live == old(live)
      ensures !old(u.fired) ==>
                subs == old(subs)[u.idx := None] && old(subs)[u.idx] == Some(u.fn) && live + 1 == old(live)
    {
      if !u.fired {
        u.fired := true;
        if u.idx < |subs| {
          TakenAfter(subs, u.idx, None);
          subs := subs[u.idx := None];
          owners := owners[u.idx := None];
          live := live - 1;
        }
      }
    }

    /** Update: on success every live subscriber, and no one else, is called once; a rejected configuration
        changes nothing. */
    method Update(newCfg: Option<C>, hooksPass: bool, valid: bool) returns (err: bool, called: seq<F>)
      requires Valid()
      modifies this`current
      ensures Valid() && err == (newCfg.None? || !hooksPass || !valid)
      ensures current == if err then old(current) else newCfg.value
      ensures called == if err then [] else Callbacks(subs)
      ensures !err ==>
                && |called| == live
                && forall i :: 0 <= i < |subs| && subs[i].Some? ==>
                     Taken(subs[..i]) < |called| && called[Taken(subs[..i])] == subs[i].value
    {
      called := [];
      if newCfg.None? || !hooksPass || !valid {
        return true, [];
      }
      current := newCfg.value;
      for i := 0 to |subs|
        invariant called == Callbacks(subs[..i])
      {
        assert subs[..i + 1][..i] == subs[..i];
        if subs[i].Some? {
          called := called + [subs[i].value];
        }
      }
      assert subs[..|subs|] == subs;
      CallbacksCount(subs);
      InSlotOrder(subs);
      err := false;
    }
  }

  /** A callback comes behind those of the taken slots in front of its own. */
  lemma {:induction false} InSlotOrder<T>(slots: seq<Option<T>>)
    ensures |Callbacks(slots)| == Taken(slots)
    ensures forall i :: 0 <= i < |slots| && slots[i].Some? ==>
              Taken(slots[..i]) < |Callbacks(slots)| && Callbacks(slots)[Taken(slots[..i])] == slots[i].value
  {
    if slots != [] {
      var n := |slots| - 1;
      InSlotOrder(slots[..n]);
      forall i | 0 <= i < |slots| && slots[i].Some?
        ensures Taken(slots[..i]) < |Callbacks(slots)| && Callbacks(slots)[Taken(slots[..i])] == slots[i].value
      {
        assert i < n ==> slots[..n][..i] == slots[..i] && slots[..n][i] == slots[i];
      }
    }
  }

  /** One callback for each taken slot. */
  lemma {:induction false} CallbacksCount<T>(slots: seq<Option<T>>)
    ensures |Callbacks(slots)| == Taken(slots)
  {
    if slots != [] {
      CallbacksCount(slots[..|slots| - 1]);
    }
  }

  /** Two live subscriptions never share a slot, and a live one's slot holds its callback. */
  lemma OwnSlot<C, F>(h: Holder<C, F>, u: Unsubscriber<F>, v: Unsubscriber<F>)
    requires h.Valid() && u in h.issued && v in h.issued && !u.fired && !v.fired
    ensures u.idx < |h.subs| && h.subs[u.idx] == Some(u.fn)
    ensures u.idx == v.idx ==> u == v
  {
    assert h.owners[u.idx] == Some(u) && h.owners[v.idx] == Some(v);
  }
}
