/** The bounded in-memory ring (internal/buffer/ring.go). */
module Ring {
  import opened Seqs

  /** The slot i steps after slot h in a ring of c slots. */
  function At(c: nat, h: nat, i: nat): nat
    requires h < c && i <= c
  {
    if h + i < c then h + i else h + i - c
  }

  lemma NextSlot(c: nat, h: nat)
    requires h < c
    ensures (h + 1) % c == At(c, h, 1)
  {
    if h + 1 < c {
    } else {
      assert h + 1 == c;
    }
  }

  /** One slot further on, every slot is one step nearer, and the one left behind is the last. */
  lemma SlotsMove(c: nat, h: nat, next: nat)
    requires h < c && next == At(c, h, 1)
    ensures next < c
    ensures forall i {:trigger At(c, next, i)} :: 0 <= i < c ==>
              At(c, next, i) == At(c, h, i + 1) && (i < c - 1 ==> At(c, next, i) != h)
    ensures At(c, next, c - 1) == h
  {
  }

  /** A fixed-capacity circular buffer. A cleared slot holds None, as Pop drops its reference. */
  class Ring<T> {
    const cap: nat
    const items: array<Option<T>>
    var head: nat
    var tail: nat
    var count: nat
    /** What the ring holds, oldest first. */
    ghost var contents: seq<T>

    ghost predicate Valid()
      reads this, items
    {
      && 0 < cap == items.Length
      && head < cap && count <= cap
      && tail == At(cap, head, count)
      && |contents| == count
      && (forall i :: 0 <= i < count ==> items[At(cap, head, i)] == Some(contents[i]))
      && (forall i :: count <= i < cap ==> items[At(cap, head, i)].None?)
    }

    constructor (capacity: int)
      requires capacity > 0
      ensures Valid() && fresh(items) && cap == capacity && contents == []
    {
      cap := capacity;
      items := new Option<T>[capacity](_ => None);
      head, tail, count, contents := 0, 0, 0, [];
    }

    /** Push refuses exactly when the ring is full, and then changes nothing. */
    method Push(p: T) returns (ok: bool)
      requires Valid()
      modifies this, items
      ensures Valid()
      ensures ok <==> |old(contents)| < cap
      ensures contents == if ok then old(contents) + [p] else old(contents)
    {
      if count == cap {
        return false;
      }
      items[tail] := Some(p);
      NextSlot(cap, tail);
      tail := (tail + 1) % cap;
      count := count + 1;
      contents := contents + [p];
      ok := true;
    }

    /** Pop takes the oldest entry. */
    method Pop() returns (p: Option<T>)
      requires Valid()
      modifies this, items
      ensures Valid()
      ensures p.None? <==> old(contents) == []
      ensures old(contents) == Maybe(p) + contents
    {
      if count == 0 {
        return None;
      }
      assert At(cap, head, 0) == head;
      p := items[head];
      items[head] := None;
      ghost var first := head;
      NextSlot(cap, head);
      head := (head + 1) % cap;
      count := count - 1;
      contents := contents[1..];
      SlotsMove(cap, first, head);
    }

    method Len() returns (n: nat)
      requires Valid()
      ensures n == |contents|
    {
      n := count;
    }
  }
}
