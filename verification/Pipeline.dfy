/** The order of points on their way through the buffer manager: eight consecutive places, and how moving
    points between neighbouring places, or losing some, leaves the order alone. */
module Pipeline {
  import opened Seqs
  import opened Points
  import opened WalSpec

  /** From the front: put out; in egress's hand; in the channel of a drain; in its files; in the log; in the
      hand of a flush; in the ring; in ingress's hand. */
  datatype Parts = Parts(
    out: seq<Point>, hand: seq<Point>, ch: seq<Point>, files: seq<Point>,
    log: seq<Point>, flush: seq<Point>, ring: seq<Point>, taken: seq<Point>)

  function Line(p: Parts): seq<Point> {
    p.out + p.hand + p.ch + p.files + p.log + p.flush + p.ring + p.taken
  }

  function Size(p: Parts): nat {
    |p.out| + |p.hand| + |p.ch| + |p.files| + |p.log| + |p.flush| + |p.ring| + |p.taken|
  }

  /** now holds, up to the log's projection, an in-order selection of was followed by added. */
  ghost predicate Moves(was: seq<Point>, added: seq<Point>, now: seq<Point>) {
    Subseq(AllStored(now), AllStored(was + added))
  }

  lemma MovesSame(was: seq<Point>)
    ensures Moves(was, [], was)
  {
    assert was + [] == was;
    SubseqRefl(AllStored(was));
  }

  lemma MovesLoss(a: seq<Point>, lost: seq<Point>, c: seq<Point>)
    ensures Moves(a + lost + c, [], a + c)
  {
    assert a + lost + c + [] == a + lost + c;
    AllStoredConcat(a + lost, c);
    AllStoredConcat(a, lost);
    AllStoredConcat(a, c);
    SubseqDrop(AllStored(a), AllStored(lost), AllStored(c));
  }

  /** Moves compose, and the reference sequence grows by what was added. */
  lemma MovesThrough(origin: seq<Point>, was: seq<Point>, added: seq<Point>, now: seq<Point>)
    requires Moves(origin, [], was) && Moves(was, added, now)
    ensures Moves(origin + added, [], now)
  {
    hide Subseq;
    assert origin + [] == origin && origin + added + [] == origin + added;
    AllStoredConcat(was, added);
    AllStoredConcat(origin, added);
    SubseqRefl(AllStored(added));
    SubseqConcat(AllStored(was), AllStored(origin), AllStored(added), AllStored(added));
    SubseqTrans(AllStored(now), AllStored(was + added), AllStored(origin + added));
  }

  lemma Emit(a: Parts, b: Parts)
    requires b == a.(out := a.out + a.hand, hand := [])
    ensures Line(b) == Line(a)
  {
  }

  lemma TakeFromChannel(a: Parts, b: Parts)
    requires a.hand == [] && a.ch != [] && b == a.(hand := [a.ch[0]], ch := a.ch[1..])
    ensures Line(b) == Line(a)
  {
    assert a.ch == [a.ch[0]] + a.ch[1..];
  }

  lemma FillChannel(a: Parts, b: Parts)
    requires a.files != [] && b == a.(ch := a.ch + [a.files[0]], files := a.files[1..])
    ensures Line(b) == Line(a)
  {
    assert a.files == [a.files[0]] + a.files[1..];
  }

  lemma TakeOver(a: Parts, b: Parts)
    requires a.files == [] && b == a.(files := a.log, log := [])
    ensures Line(b) == Line(a)
  {
  }

  lemma FlushPop(a: Parts, b: Parts)
    requires a.flush == [] && a.ring != [] && b == a.(flush := [a.ring[0]], ring := a.ring[1..])
    ensures Line(b) == Line(a)
  {
    assert a.ring == [a.ring[0]] + a.ring[1..];
  }

  lemma Push(a: Parts, b: Parts)
    requires b == a.(ring := a.ring + a.taken, taken := [])
    ensures Line(b) == Line(a)
  {
  }

  /** Egress may overtake the places in between because they are empty. */
  lemma TakeFromRing(a: Parts, b: Parts)
    requires a.hand == [] && a.ch == [] && a.files == [] && a.log == [] && a.flush == [] && a.ring != []
    requires b == a.(hand := [a.ring[0]], ring := a.ring[1..])
    ensures Line(b) == Line(a)
  {
    assert a.ring == [a.ring[0]] + a.ring[1..];
  }

  lemma Take(a: Parts, p: Point, b: Parts)
    requires a.taken == [] && b == a.(taken := [p])
    ensures Moves(Line(a), [p], Line(b))
  {
    assert Line(b) == Line(a) + [p];
    SubseqRefl(AllStored(Line(b)));
  }

  lemma LoseHand(a: Parts, b: Parts)
    requires b == a.(hand := [])
    ensures Moves(Line(a), [], Line(b))
  {
    var rest := a.ch + a.files + a.log + a.flush + a.ring + a.taken;
    assert Line(a) == a.out + a.hand + rest && Line(b) == a.out + rest;
    MovesLoss(a.out, a.hand, rest);
  }

  lemma LoseDrain(a: Parts, b: Parts)
    requires b == a.(hand := [], ch := [], files := [])
    ensures Moves(Line(a), [], Line(b))
  {
    var lost, rest := a.hand + a.ch + a.files, a.log + a.flush + a.ring + a.taken;
    assert Line(a) == a.out + lost + rest && Line(b) == a.out + rest;
    MovesLoss(a.out, lost, rest);
  }

  lemma LoseFiles(a: Parts, x: seq<Point>, lost: seq<Point>, y: seq<Point>, b: Parts)
    requires a.files == x + lost + y && b == a.(files := x + y)
    ensures Moves(Line(a), [], Line(b))
  {
    var ahead, behind := a.out + a.hand + a.ch + x, y + a.log + a.flush + a.ring + a.taken;
    assert Line(a) == ahead + lost + behind && Line(b) == ahead + behind;
    MovesLoss(ahead, lost, behind);
  }

  lemma LoseLog(a: Parts, x: seq<Point>, lost: seq<Point>, y: seq<Point>, b: Parts)
    requires a.log == x + lost + y && b == a.(log := x + y)
    ensures Moves(Line(a), [], Line(b))
  {
    var ahead, behind := a.out + a.hand + a.ch + a.files + x, y + a.flush + a.ring + a.taken;
    assert Line(a) == ahead + lost + behind && Line(b) == ahead + behind;
    MovesLoss(ahead, lost, behind);
  }

  /** A log write takes the point at the head of what follows the log. */
  lemma MovesWrite(front: seq<Point>, l: Log, q: Point, o: Outcome, back: seq<Point>)
    requires WellFormed(l) && Possible(l, o)
    ensures Moves(front + Flatten(l.segs) + [q] + back, [], front + Flatten(Written(l, q, o).segs) + back)
  {
    hide Flatten, Written, Subseq, Moves;
    WrittenContents(l, q, o);
    SubseqNil(AllStored([q]));
    SubseqRefl(AllStored([q]));
    StoredIdempotent(q);
    assert AllStored([Stored(q)]) == AllStored([q]);
    FivePieces(front, Flatten(l.segs[..o.pruned]), Flatten(l.segs[o.pruned..]), [q], back,
               if Kept(l, o) then [Stored(q)] else []);
  }

  /** A run of writes takes the points behind the log in order. */
  lemma {:induction false} MovesWrites(l: Log, ps: seq<Point>, os: seq<Outcome>, l': Log)
    requires Writes(l, ps, os, l')
    ensures Moves(Flatten(l.segs) + ps, [], Flatten(l'.segs))
    decreases |ps|
  {
    hide Flatten, Moves, Written;
    if ps == [] {
      assert Flatten(l.segs) + ps == Flatten(l.segs);
      MovesSame(Flatten(l.segs));
    } else {
      MovesWrites(Written(l, ps[0], os[0]), ps[1..], os[1..], l');
      MovesFirst(l, ps[0], os[0], ps[1..], Flatten(l'.segs));
      assert [ps[0]] + ps[1..] == ps;
    }
  }

  lemma MovesFirst(l: Log, p: Point, o: Outcome, rest: seq<Point>, end: seq<Point>)
    requires WellFormed(l) && Possible(l, o)
    requires Moves(Flatten(Written(l, p, o).segs) + rest, [], end)
    ensures Moves(Flatten(l.segs) + ([p] + rest), [], end)
  {
    hide Flatten, Moves, Written;
    var was, mid := Flatten(l.segs) + ([p] + rest), Flatten(Written(l, p, o).segs) + rest;
    MovesWrite([], l, p, o, rest);
    assert [] + Flatten(l.segs) + [p] + rest == was;
    assert [] + Flatten(Written(l, p, o).segs) + rest == mid;
    assert was + [] == was;
    MovesThrough(was, mid, [], end);
  }

  lemma FivePieces(a: seq<Point>, b: seq<Point>, c: seq<Point>, d: seq<Point>, e: seq<Point>, d': seq<Point>)
    requires Subseq(AllStored(d'), AllStored(d))
    ensures Moves(a + (b + c) + d + e, [], a + (c + d') + e)
  {
    hide Subseq;
    AllStoredConcat(a + c + d', e);
    AllStoredConcat(a + c, d');
    AllStoredConcat(a, c);
    AllStoredConcat(a + b + c + d, e);
    AllStoredConcat(a + b + c, d);
    AllStoredConcat(a + b, c);
    AllStoredConcat(a, b);
    FivePiecesOf(AllStored(a), AllStored(b), AllStored(c), AllStored(d), AllStored(e), AllStored(d'));
    assert a + (b + c) + d + e + [] == a + b + c + d + e;
    assert a + (c + d') + e == a + c + d' + e;
  }

  lemma FivePiecesOf<T>(a: seq<T>, b: seq<T>, c: seq<T>, d: seq<T>, e: seq<T>, d': seq<T>)
    requires Subseq(d', d)
    ensures Subseq(a + c + d' + e, a + b + c + d + e)
  {
    hide Subseq;
    SubseqDrop(a, b, c);
    SubseqConcat(a + c, a + b + c, d', d);
    SubseqRefl(e);
    SubseqConcat(a + c + d', a + b + c + d, e, e);
  }

  /** A flush writes the point in its hand. */
  lemma Spill(a: Parts, l: Log, q: Point, o: Outcome, b: Parts)
    requires WellFormed(l) && Possible(l, o) && a.log == Flatten(l.segs) && a.flush == [q]
    requires b == a.(log := Flatten(Written(l, q, o).segs), flush := [])
    ensures Moves(Line(a), [], Line(b))
  {
    hide Flatten, Written, Moves;
    var front, back := a.out + a.hand + a.ch + a.files, a.ring + a.taken;
    MovesWrite(front, l, q, o, back);
    assert Line(a) == front + Flatten(l.segs) + [q] + back;
    assert Line(b) == front + Flatten(Written(l, q, o).segs) + back;
  }

  /** Ingress writes the point in its hand, past an empty ring. */
  lemma SpillDirectly(a: Parts, l: Log, q: Point, o: Outcome, b: Parts)
    requires WellFormed(l) && Possible(l, o) && a.log == Flatten(l.segs)
    requires a.flush == [] && a.ring == [] && a.taken == [q]
    requires b == a.(log := Flatten(Written(l, q, o).segs), taken := [])
    ensures Moves(Line(a), [], Line(b))
  {
    hide Flatten, Written, Moves;
    var front := a.out + a.hand + a.ch + a.files;
    MovesWrite(front, l, q, o, []);
    assert Line(a) == front + Flatten(l.segs) + [q] + [];
    assert Line(b) == front + Flatten(Written(l, q, o).segs) + [];
  }

  /** One record lost from one of several segments. */
  lemma LoseOne(ss: seq<seq<Point>>, i: nat, j: nat) returns (a: seq<Point>, c: seq<Point>)
    requires i < |ss| && j < |ss[i]|
    ensures Flatten(ss) == a + [ss[i][j]] + c
    ensures Flatten(ss[i := Without(ss[i], j)]) == a + c
  {
    hide Flatten;
    FlattenAround(ss, i, ss[i]);
    FlattenAround(ss, i, Without(ss[i], j));
    assert ss[i := ss[i]] == ss;
    a, c := Flatten(ss[..i]) + ss[i][..j], ss[i][j + 1..] + Flatten(ss[i + 1..]);
    assert ss[i] == ss[i][..j] + [ss[i][j]] + ss[i][j + 1..];
  }
}
