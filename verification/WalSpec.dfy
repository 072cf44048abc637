/** The write-ahead log as the buffer manager sees it: a list of segments, each a list of points. */
module WalSpec {
  import opened Seqs
  import opened Points

  /** segs holds what a reader of each tracked segment would get, oldest segment first; when active is set
      the last segment is open for appending. It is clear unless a record over the reader's limit was appended to
      the active segment: the reader gives that segment up there. */
  datatype Log = Log(segs: seq<seq<Point>>, active: bool, clear: bool)

  ghost predicate WellFormed(l: Log) {
    (l.active ==> l.segs != []) && (!l.active ==> l.clear)
  }

  /** How one write may turn out: how many oldest segments the size limit costs, whether a new segment is
      opened, whether the record is appended, whether it is within the reader's limit, and whether the caller is
      told of an error. A record that was appended but not synced fails and is in the file all the same. */
  datatype Outcome = Outcome(pruned: nat, rotated: bool, appended: bool, fits: bool, failed: bool)

  ghost predicate Possible(l: Log, o: Outcome) {
    && o.pruned <= |l.segs| - (if l.active then 1 else 0)
    && (o.appended ==> l.active || o.rotated)
    && (!o.failed ==> o.appended)
  }

  /** A reader will see the record: it was appended, is within the limit, and none over it is in front. */
  predicate Kept(l: Log, o: Outcome) {
    o.appended && o.fits && (o.rotated || l.clear)
  }

  function Written(l: Log, p: Point, o: Outcome): Log
    requires o.pruned <= |l.segs| && (o.appended ==> o.rotated || o.pruned < |l.segs|)
  {
    var segs := l.segs[o.pruned..] + (if o.rotated then [[]] else []);
    Log(if Kept(l, o) then segs[|segs| - 1 := segs[|segs| - 1] + [Stored(p)]] else segs,
        l.active || o.rotated,
        (o.rotated || l.clear) && (o.appended ==> o.fits))
  }

  /** Whatever the outcome, a write removes an oldest stretch of the log and appends at most the one point. */
  lemma WrittenContents(l: Log, p: Point, o: Outcome)
    requires WellFormed(l) && Possible(l, o)
    ensures WellFormed(Written(l, p, o))
    ensures Flatten(l.segs) == Flatten(l.segs[..o.pruned]) + Flatten(l.segs[o.pruned..])
    ensures Flatten(Written(l, p, o).segs) == Flatten(l.segs[o.pruned..]) + (if Kept(l, o) then [Stored(p)] else [])
  {
    FlattenSplit(l.segs, o.pruned);
    var rest := l.segs[o.pruned..];
    var segs := rest + (if o.rotated then [[]] else []);
    if o.rotated {
      FlattenSnoc(rest, []);
    } else {
      assert segs == rest;
    }
    assert Flatten(segs) == Flatten(rest);
    if Kept(l, o) {
      FlattenGrowLast(segs, Stored(p));
    }
  }

  /** The log when room has been made, and a new segment opened if it takes one. */
  function Ready(l: Log, pruned: nat, rotated: bool): Log
    requires pruned <= |l.segs|
  {
    Log(l.segs[pruned..] + (if rotated then [[]] else []), l.active || rotated, rotated || l.clear)
  }

  /** A write is its pruning, then its rotation, then an append in place if it comes to that. */
  lemma WrittenInSteps(l: Log, o: Outcome, p: Point, appended: bool, fits: bool, failed: bool)
    requires WellFormed(l) && Possible(l, o.(failed := true)) && !o.appended
    requires (appended ==> l.active || o.rotated) && (!failed ==> appended)
    ensures var ready, o' := Ready(l, o.pruned, o.rotated), o.(appended := appended, fits := fits, failed := failed);
            && WellFormed(ready) && Possible(ready, Outcome(0, false, appended, fits, failed)) && Possible(l, o')
            && Written(ready, p, Outcome(0, false, appended, fits, failed)) == Written(l, p, o')
            && (!appended ==> Written(l, p, o') == ready)
    ensures Ready(l, 0, false) == l
  {
    var ready := Ready(l, o.pruned, o.rotated);
    assert ready.segs[0..] + [] == ready.segs;
    assert l.segs[0..] + [] == l.segs;
  }

  lemma NothingWritten(l: Log, o: Outcome, p: Point)
    requires WellFormed(l) && o == Outcome(0, false, false, o.fits, true)
    ensures Possible(l, o) && Written(l, p, o) == l
  {
    assert l.segs[0..] + [] == l.segs;
  }

  /** Writing the points one after another with the given outcomes leads from one log to the other. */
  ghost predicate Writes(l: Log, ps: seq<Point>, os: seq<Outcome>, l': Log)
    decreases |ps|
  {
    && |os| == |ps|
    && if ps == [] then l' == l
       else Possible(l, os[0]) && WellFormed(l) && Writes(Written(l, ps[0], os[0]), ps[1..], os[1..], l')
  }

  function Failures(os: seq<Outcome>): nat {
    if os == [] then 0 else (if os[0].failed then 1 else 0) + Failures(os[1..])
  }

  function Successes(os: seq<Outcome>): (n: nat)
    ensures n + Failures(os) == |os|
  {
    if os == [] then 0 else (if os[0].failed then 0 else 1) + Successes(os[1..])
  }

  lemma {:induction false} WritesSnoc(l: Log, ps: seq<Point>, os: seq<Outcome>, l': Log, p: Point, o: Outcome)
    requires Writes(l, ps, os, l') && WellFormed(l') && Possible(l', o)
    ensures Writes(l, ps + [p], os + [o], Written(l', p, o))
    ensures Failures(os + [o]) == Failures(os) + if o.failed then 1 else 0
    ensures Successes(os + [o]) == Successes(os) + if o.failed then 0 else 1
    decreases |ps|
  {
    if ps == [] {
      assert ps + [p] == [p] && os + [o] == [o];
      assert [p][1..] == [] && [o][1..] == [];
    } else {
      WritesSnoc(Written(l, ps[0], os[0]), ps[1..], os[1..], l', p, o);
      assert (ps + [p])[1..] == ps[1..] + [p] && (os + [o])[1..] == os[1..] + [o];
    }
  }
}
