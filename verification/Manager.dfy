/** The critical sections of the buffer manager (internal/buffer/buffer.go), run on the real ring and log. Each
    method below is what one goroutine does between taking and releasing connMu. */
module Manager {
  import opened Seqs
  import opened Points
  import opened Codec
  import opened WalSpec
  import opened Pipeline
  import R = Ring
  import W = Wal

  /** Protobuf encoding may refuse a point; whatever it produces decodes to the point's message. */
  ghost predicate Faithful(lib: Lib, marshal: Point -> Option<seq<byte>>) {
    forall p :: marshal(p).Some? ==>
      |marshal(p).value| < 0x8000_0000 && lib.unmarshal(marshal(p).value) == Some(PointToProto(p))
  }

  /** The reader takes records as long as this. */
  ghost predicate Fits(marshal: Point -> Option<seq<byte>>, p: Point) {
    marshal(p).Some? && |marshal(p).value| <= MAX_RECORD
  }

  /** Which of the written points do. */
  ghost predicate Sized(marshal: Point -> Option<seq<byte>>, ps: seq<Point>, os: seq<Outcome>) {
    |os| == |ps| && forall i :: 0 <= i < |ps| ==> (os[i].fits <==> Fits(marshal, ps[i]))
  }

  class Manager {
    const ring: R.Ring<Point>
    const wal: W.WAL
    const marshal: Point -> Option<seq<byte>>
    var connected: bool
    var ringPushes: nat
    var walSpills: nat
    var dropped: nat

    ghost predicate Valid()
      reads this, ring, ring.items, wal, wal.disk
    {
      ring.Valid() && wal.Valid() && Faithful(wal.lib, marshal)
    }

    /** What is waiting for egress, oldest first: the log, then the ring. */
    ghost function Backlog(): seq<Point>
      requires Valid()
      reads this, ring, ring.items, wal, wal.disk
    {
      Flatten(wal.Contents().segs) + ring.contents
    }

    constructor (ring: R.Ring<Point>, wal: W.WAL, marshal: Point -> Option<seq<byte>>)
      requires ring.Valid() && wal.Valid() && Faithful(wal.lib, marshal)
      ensures Valid() && connected && this.ring == ring && this.wal == wal
      ensures ringPushes == walSpills == dropped == 0
    {
      this.ring, this.wal, this.marshal := ring, wal, marshal;
      connected := true;
      ringPushes, walSpills, dropped := 0, 0, 0;
    }

    /** walWrite: into the log, or dropped. What is dropped is in the log all the same when its record was appended
        and a reader gets to it; Written says so. */
    method WriteOrDrop(p: Point) returns (ghost o: Outcome)
      requires Valid()
      modifies this`walSpills, this`dropped, wal, wal.disk
      ensures Valid()
      ensures Possible(old(wal.Contents()), o) && wal.Contents() == Written(old(wal.Contents()), p, o)
      ensures (o.fits <==> Fits(marshal, p)) && (o.appended ==> marshal(p).Some?)
      ensures walSpills == old(walSpills) + if o.failed then 0 else 1
      ensures dropped == old(dropped) + if o.failed then 1 else 0
    {
      hide Faithful, Written, Possible, R.Ring.Valid, W.WAL.Valid, W.WAL.Contents;
      MarshalIsFaithful(wal.lib, marshal, p);
      var ok;
      ok, o := wal.Write(p, marshal(p));
      if ok {
        walSpills := walSpills + 1;
      } else {
        dropped := dropped + 1;
      }
    }

    /** One round of flushRingToWAL. */
    method FlushOne() returns (ghost p: Option<Point>, more: bool, ghost o: Outcome)
      requires Valid()
      modifies this`walSpills, this`dropped, ring, ring.items, wal, wal.disk
      ensures Valid() && old(ring.contents) == Maybe(p) + ring.contents
      ensures more == p.Some? == (old(ring.contents) != [])
      ensures if more then
                Possible(old(wal.Contents()), o) && wal.Contents() == Written(old(wal.Contents()), p.value, o)
              else wal.Contents() == old(wal.Contents())
      ensures more ==> (o.fits <==> Fits(marshal, p.value)) && (o.appended ==> marshal(p.value).Some?)
      ensures walSpills == old(walSpills) + if more && !o.failed then 1 else 0
      ensures dropped == old(dropped) + if more && o.failed then 1 else 0
    {
      hide Faithful, Written, Possible, R.Ring.Valid, W.WAL.Valid, W.WAL.Contents;
      o := Outcome(0, false, false, false, true);
      var q := ring.Pop();
      p, more := q, q.Some?;
      if more {
        o := WriteOrDrop(q.value);
      }
    }

    /** flushRingToWAL: the ring is emptied into the log, oldest point first, one write each. */
    method FlushRingToWal() returns (ghost os: seq<Outcome>)
      requires Valid()
      modifies this`walSpills, this`dropped, ring, ring.items, wal, wal.disk
      ensures Valid() && ring.contents == []
      ensures Writes(old(wal.Contents()), old(ring.contents), os, wal.Contents())
      ensures Sized(marshal, old(ring.contents), os)
      ensures dropped == old(dropped) + Failures(os) && walSpills == old(walSpills) + Successes(os)
      ensures Moves(old(Backlog()), [], Backlog())
    {
      hide Faithful, Fits, Writes, Written, Possible, Failures, Successes, Moves, Flatten;
      hide R.Ring.Valid, W.WAL.Valid, W.WAL.Contents, W.Read, W.Tracked, W.Numbered, W.Bytes, W.Writable;
      ghost var l, all, done, now := wal.Contents(), ring.contents, [], wal.Contents();
      os := [];
      NoWrites(l);
      var more := true;
      while more
        invariant Valid() && now == wal.Contents() && all == done + ring.contents
        invariant !more ==> ring.contents == []
        invariant Writes(l, done, os, now) && Sized(marshal, done, os)
        invariant dropped == old(dropped) + Failures(os) && walSpills == old(walSpills) + Successes(os)
        decreases if more then |ring.contents| + 1 else 0
      {
        ghost var p, o;
        p, more, o := FlushOne();
        if more {
          OneMoreSized(marshal, done, os, p.value, o);
          os, done, now := WriteNext(l, done, os, now, p.value, o);
        }
      }
      assert done == all;
      MovesWrites(l, all, os, now);
      assert Flatten(now.segs) + [] == Flatten(now.segs);
    }

    /** The critical section of runIngress: straight to the log while disconnected, otherwise into the ring, or
        past a full ring that is flushed first. Order is kept because a disconnected ring is empty. */
    method Ingest(p: Point) returns (ghost os: seq<Outcome>)
      requires Valid() && (!connected ==> ring.contents == [])
      modifies this`ringPushes, this`walSpills, this`dropped, ring, ring.items, wal, wal.disk
      ensures Valid() && (!connected ==> ring.contents == [])
      ensures connected && |old(ring.contents)| < ring.cap ==>
                && ring.contents == old(ring.contents) + [p] && wal.Contents() == old(wal.Contents())
                && ringPushes == old(ringPushes) + 1 && os == []
      ensures !connected || |old(ring.contents)| == ring.cap ==>
                && ring.contents == [] && ringPushes == old(ringPushes)
                && Writes(old(wal.Contents()), old(ring.contents) + [p], os, wal.Contents())
                && Sized(marshal, old(ring.contents) + [p], os)
      ensures dropped == old(dropped) + Failures(os) && walSpills == old(walSpills) + Successes(os)
      ensures Moves(old(Backlog()), [p], Backlog())
    {
      hide Faithful, Fits, Writes, Written, Possible, Failures, Successes, Moves, Flatten;
      hide R.Ring.Valid, W.WAL.Valid, W.WAL.Contents, W.Read, W.Tracked, W.Numbered, W.Bytes, W.Writable;
      ghost var l, origin := wal.Contents(), Backlog();
      os := [];
      NoWrites(l);
      if connected {
        var ok := ring.Push(p);
        if ok {
          ringPushes := ringPushes + 1;
          assert Backlog() == origin + [p];
          MovesBy(origin, p, Backlog());
          return;
        }
        os := FlushRingToWal();
      }
      ghost var queued, mid, before := old(ring.contents), wal.Contents(), os;
      ghost var o := WriteOrDrop(p);
      OneMoreSized(marshal, queued, before, p, o);
      ghost var all, end;
      os, all, end := WriteNext(l, queued, before, mid, p, o);
      MovesWrites(l, all, os, end);
      assert Flatten(l.segs) + (queued + [p]) == origin + [p];
      assert Backlog() == Flatten(wal.Contents().segs);
      MovesRegroup(origin, p, Backlog());
    }

    /** The critical section of runEgress: the ring is popped only when the log is empty, so what comes out is
        the head of the backlog. */
    method TakeNext() returns (hasWal: bool, p: Option<Point>)
      requires Valid()
      modifies ring, ring.items
      ensures Valid() && wal.Contents() == old(wal.Contents())
      ensures hasWal <==> wal.Contents().segs != []
      ensures hasWal ==> p.None? && ring.contents == old(ring.contents)
      ensures old(Backlog()) == Maybe(p) + Backlog()
      ensures !hasWal && p.None? ==> Backlog() == []
    {
      hide Faithful;
      hasWal := wal.HasData();
      p := None;
      if !hasWal {
        p := ring.Pop();
      }
    }

    /** OnConnChange: going down flushes the ring, coming up changes nothing but the flag. */
    method OnConnChange(up: bool) returns (ghost os: seq<Outcome>)
      requires Valid()
      modifies this`connected, this`walSpills, this`dropped, ring, ring.items, wal, wal.disk
      ensures Valid() && connected == up
      ensures up ==> ring.contents == old(ring.contents) && wal.Contents() == old(wal.Contents()) && os == []
      ensures !up ==> ring.contents == [] && Writes(old(wal.Contents()), old(ring.contents), os, wal.Contents())
      ensures !up ==> Sized(marshal, old(ring.contents), os)
      ensures dropped == old(dropped) + Failures(os) && walSpills == old(walSpills) + Successes(os)
      ensures Moves(old(Backlog()), [], Backlog())
    {
      hide Faithful, Sized, Writes, Moves, Flatten;
      MovesSame(Backlog());
      connected := up;
      os := [];
      if !up {
        os := FlushRingToWal();
      }
    }
  }

  lemma MarshalIsFaithful(lib: Lib, marshal: Point -> Option<seq<byte>>, p: Point)
    requires Faithful(lib, marshal)
    ensures marshal(p).Some? ==>
              |marshal(p).value| < 0x8000_0000 && lib.unmarshal(marshal(p).value) == Some(PointToProto(p))
  {
  }

  lemma OneMoreSized(marshal: Point -> Option<seq<byte>>, ps: seq<Point>, os: seq<Outcome>, p: Point, o: Outcome)
    requires Sized(marshal, ps, os) && (o.fits <==> Fits(marshal, p))
    ensures Sized(marshal, ps + [p], os + [o])
  {
  }

  lemma NoWrites(l: Log)
    ensures Writes(l, [], [], l) && Failures([]) == Successes([]) == 0
  {
  }

  /** A run of writes goes on with one more. */
  lemma WriteNext(l: Log, ps: seq<Point>, os: seq<Outcome>, mid: Log, p: Point, o: Outcome)
    returns (os': seq<Outcome>, ps': seq<Point>, end: Log)
    requires Writes(l, ps, os, mid) && WellFormed(mid) && Possible(mid, o)
    ensures os' == os + [o] && ps' == ps + [p] && end == Written(mid, p, o)
    ensures Writes(l, ps', os', end)
    ensures Failures(os') == Failures(os) + if o.failed then 1 else 0
    ensures Successes(os') == Successes(os) + if o.failed then 0 else 1
  {
    os', ps', end := os + [o], ps + [p], Written(mid, p, o);
    WritesSnoc(l, ps, os, mid, p, o);
  }

  lemma MovesBy(origin: seq<Point>, p: Point, now: seq<Point>)
    requires now == origin + [p]
    ensures Moves(origin, [p], now)
  {
    SubseqRefl(AllStored(now));
  }

  lemma MovesRegroup(origin: seq<Point>, p: Point, now: seq<Point>)
    requires Moves(origin + [p], [], now)
    ensures Moves(origin, [p], now)
  {
    assert origin + [p] + [] == origin + [p];
  }
}
