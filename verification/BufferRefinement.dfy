/** The critical sections as methods on the real ring and log, and as steps of the concurrent model: run without
    interruption, the steps do what the contracts of the methods say. */
module BufferRefinement {
  import opened Seqs
  import opened Points
  import opened WalSpec
  import opened BufferModel

  /** Steps taken one after the other, with nothing in between. */
  ghost predicate Solo(s: State, steps: seq<Action>, s': State)
    decreases |steps|
  {
    if steps == [] then s' == s
    else Enabled(s, steps[0]) && Solo(Apply(s, steps[0]), steps[1..], s')
  }

  lemma {:induction false} SoloConcat(s: State, a: seq<Action>, mid: State, b: seq<Action>, s': State)
    requires Solo(s, a, mid) && Solo(mid, b, s')
    ensures Solo(s, a + b, s')
    decreases |a|
  {
    hide Apply, Enabled;
    if a == [] {
      assert a + b == b;
    } else {
      SoloConcat(Apply(s, a[0]), a[1..], mid, b, s');
      assert (a + b)[0] == a[0] && (a + b)[1..] == a[1..] + b;
    }
  }

  lemma SoloOne(s: State, a: Action)
    requires Enabled(s, a)
    ensures Solo(s, [a], Apply(s, a))
  {
    hide Apply, Enabled;
    assert [a][1..] == [];
  }

  /** What ingress's part of the state looks like, and what its steps leave alone. */
  ghost predicate Reaches(s: State, steps: seq<Action>, s': State, ing: Ingress, ring: seq<Point>, log: Log,
                          pushed: nat, os: seq<Outcome>) {
    && Solo(s, steps, s')
    && s'.ing == ing && s'.ring == ring && s'.log == log
    && s'.connected == s.connected && s'.cap == s.cap && s'.eg == s.eg && s'.drain == s.drain
    && s'.tally.ringPushes == s.tally.ringPushes + pushed
    && s'.tally.walSpills == s.tally.walSpills + Successes(os)
    && s'.tally.dropped == s.tally.dropped + Failures(os)
  }

  lemma OneWrite(o: Outcome)
    ensures Failures([o]) == (if o.failed then 1 else 0) && Successes([o]) == if o.failed then 0 else 1
  {
    assert [o][1..] == [];
    assert Failures([]) == 0 && Successes([]) == 0;
  }

  lemma DirectWrite(s: State, p: Point, o: Outcome) returns (s': State)
    requires s.ing == Direct(p) && Possible(s.log, o)
    ensures Reaches(s, [In(InWrite(o))], s', Leaving, s.ring, Written(s.log, p, o), 0, [o])
  {
    hide Written;
    s' := Apply(s, In(InWrite(o)));
    SoloOne(s, In(InWrite(o)));
    OneWrite(o);
    hide Solo, Failures, Successes;
  }

  /** Two stretches of steps, the first of which ends where the second begins. */
  lemma Chain(s: State, a: seq<Action>, mid: State, b: seq<Action>, s': State,
              i: Ingress, r: seq<Point>, l: Log, k: nat, os: seq<Outcome>,
              i': Ingress, r': seq<Point>, l': Log, k': nat, os': seq<Outcome>)
    requires Reaches(s, a, mid, i, r, l, k, os) && Reaches(mid, b, s', i', r', l', k', os')
    ensures Reaches(s, a + b, s', i', r', l', k + k', os + os')
  {
    hide Solo, Failures, Successes;
    SoloConcat(s, a, mid, b, s');
    CountsConcat(os, os');
  }

  lemma {:induction false} CountsConcat(a: seq<Outcome>, b: seq<Outcome>)
    ensures Failures(a + b) == Failures(a) + Failures(b) && Successes(a + b) == Successes(a) + Successes(b)
  {
    if a == [] {
      assert a + b == b;
    } else {
      CountsConcat(a[1..], b);
      assert (a + b)[1..] == a[1..] + b;
    }
  }

  lemma NoWrite()
    ensures Failures([]) == 0 && Successes([]) == 0
  {
  }

  /** One round of the flush loop that finds a point in the ring. */
  lemma FlushRound(s: State, p: Point, o: Outcome) returns (s': State)
    requires s.ing == Flushing(p) && s.ring != [] && Possible(s.log, o)
    ensures Reaches(s, [In(InPop), In(InFlushWrite(o))], s', Flushing(p), s.ring[1..], Written(s.log, s.ring[0], o),
                    0, [o])
  {
    hide Written;
    var popped := Apply(s, In(InPop));
    s' := Apply(popped, In(InFlushWrite(o)));
    SoloOne(s, In(InPop));
    SoloOne(popped, In(InFlushWrite(o)));
    SoloConcat(s, [In(InPop)], popped, [In(InFlushWrite(o))], s');
    assert [In(InPop)] + [In(InFlushWrite(o))] == [In(InPop), In(InFlushWrite(o))];
    OneWrite(o);
    hide Solo, Failures, Successes;
  }

  /** The flush loop: pop and write until the ring is empty. */
  lemma {:induction false} FlushBySteps(s: State, p: Point, os: seq<Outcome>, l': Log)
    returns (steps: seq<Action>, s': State)
    requires s.ing == Flushing(p) && Writes(s.log, s.ring, os, l')
    ensures Reaches(s, steps, s', Direct(p), [], l', 0, os)
    decreases |s.ring|
  {
    hide Written, Possible, WellFormed, Failures, Successes, Solo;
    if s.ring == [] {
      steps, s' := [In(InPop)], Apply(s, In(InPop));
      SoloOne(s, In(InPop));
      NoWrite();
    } else {
      var mid := FlushRound(s, p, os[0]);
      var rest;
      rest, s' := FlushBySteps(mid, p, os[1..], l');
      hide Reaches;
      steps := [In(InPop), In(InFlushWrite(os[0]))] + rest;
      Chain(s, [In(InPop), In(InFlushWrite(os[0]))], mid, rest, s', Flushing(p), s.ring[1..],
            mid.log, 0, [os[0]], Direct(p), [], l', 0, os[1..]);
      assert [os[0]] + os[1..] == os;
    }
  }

  lemma {:induction false} LastWrite(l: Log, ps: seq<Point>, p: Point, os: seq<Outcome>, l': Log) returns (mid: Log)
    requires Writes(l, ps + [p], os, l')
    ensures |os| == |ps| + 1 && Writes(l, ps, os[..|ps|], mid)
    ensures Possible(mid, os[|ps|]) && WellFormed(mid) && l' == Written(mid, p, os[|ps|])
    decreases |ps|
  {
    if ps == [] {
      mid := l;
      assert ps + [p] == [p] && [p][1..] == [];
    } else {
      assert (ps + [p])[1..] == ps[1..] + [p] && (ps + [p])[0] == ps[0];
      mid := LastWrite(Written(l, ps[0], os[0]), ps[1..], p, os[1..], l');
      assert os[..|ps|][1..] == os[1..][..|ps| - 1];
    }
  }

  lemma LoadStep(s: State, p: Point) returns (s': State)
    requires s.ing == Entered(p)
    ensures Reaches(s, [In(InLoad)], s', if s.connected then Offering(p) else Direct(p), s.ring, s.log, 0, [])
  {
    s' := Apply(s, In(InLoad));
    SoloOne(s, In(InLoad));
    NoWrite();
    hide Solo, Failures, Successes;
  }

  lemma PushStep(s: State, p: Point) returns (s': State)
    requires s.ing == Offering(p)
    ensures if |s.ring| < s.cap then Reaches(s, [In(InPush)], s', Leaving, s.ring + [p], s.log, 1, [])
            else Reaches(s, [In(InPush)], s', Flushing(p), s.ring, s.log, 0, [])
  {
    s' := Apply(s, In(InPush));
    SoloOne(s, In(InPush));
    NoWrite();
    hide Solo, Failures, Successes;
  }

  /** The whole critical section of ingress: the steps lead exactly where Manager.Ingest's contract says. */
  lemma IngestBySteps(s: State, p: Point, os: seq<Outcome>, l': Log) returns (steps: seq<Action>, s': State)
    requires s.ing == Entered(p) && |s.ring| <= s.cap && (!s.connected ==> s.ring == [])
    requires s.connected && |s.ring| < s.cap ==> os == [] && l' == s.log
    requires !s.connected || |s.ring| == s.cap ==> Writes(s.log, s.ring + [p], os, l')
    ensures if s.connected && |s.ring| < s.cap then Reaches(s, steps, s', Leaving, s.ring + [p], l', 1, os)
            else Reaches(s, steps, s', Leaving, [], l', 0, os)
  {
    hide Written, Possible, Failures, Successes, Solo;
    var loaded := LoadStep(s, p);
    if !s.connected {
      steps, s' := IngestDirect(s, p, os, l', loaded);
      return;
    }
    var pushed := PushStep(loaded, p);
    steps := [In(InLoad)] + [In(InPush)];
    if |s.ring| < s.cap {
      s' := pushed;
      Chain(s, [In(InLoad)], loaded, [In(InPush)], pushed, Offering(p), s.ring, s.log, 0, [],
            Leaving, s.ring + [p], s.log, 1, []);
      assert [] + [] == os;
    } else {
      Chain(s, [In(InLoad)], loaded, [In(InPush)], pushed, Offering(p), s.ring, s.log, 0, [],
            Flushing(p), s.ring, s.log, 0, []);
      assert Reaches(s, steps, pushed, Flushing(p), s.ring, s.log, 0, []);
      steps, s' := IngestFull(s, p, os, l', steps, pushed);
    }
  }

  lemma IngestDirect(s: State, p: Point, os: seq<Outcome>, l': Log, loaded: State)
    returns (steps: seq<Action>, s': State)
    requires Writes(s.log, [] + [p], os, l') && s.ring == []
    requires Reaches(s, [In(InLoad)], loaded, Direct(p), [], s.log, 0, [])
    ensures Reaches(s, steps, s', Leaving, [], l', 0, os)
  {
    hide Written, Possible, Failures, Successes, Solo;
    var mid := LastWrite(s.log, [], p, os, l');
    assert Writes(s.log, [], os[..0], mid) && mid == s.log;
    s' := DirectWrite(loaded, p, os[0]);
    steps := [In(InLoad)] + [In(InWrite(os[0]))];
    hide Reaches;
    Chain(s, [In(InLoad)], loaded, [In(InWrite(os[0]))], s', Direct(p), [], s.log, 0, [], Leaving, [], l', 0, [os[0]]);
    assert [] + [os[0]] == os;
  }

  lemma IngestFull(s: State, p: Point, os: seq<Outcome>, l': Log, before: seq<Action>, pushed: State)
    returns (steps: seq<Action>, s': State)
    requires Writes(s.log, s.ring + [p], os, l')
    requires Reaches(s, before, pushed, Flushing(p), s.ring, s.log, 0, [])
    ensures Reaches(s, steps, s', Leaving, [], l', 0, os)
  {
    hide Written, Possible, Failures, Successes, Solo, Writes;
    var n := |s.ring|;
    var mid := LastWrite(s.log, s.ring, p, os, l');
    var flush, flushed := FlushBySteps(pushed, p, os[..n], mid);
    s' := DirectWrite(flushed, p, os[n]);
    hide Reaches;
    Chain(s, before, pushed, flush, flushed, Flushing(p), s.ring, s.log, 0, [], Direct(p), [], mid, 0, os[..n]);
    Chain(s, before + flush, flushed, [In(InWrite(os[n]))], s', Direct(p), [], mid, 0, [] + os[..n],
          Leaving, [], l', 0, [os[n]]);
    steps := before + flush + [In(InWrite(os[n]))];
    assert [] + os[..n] + [os[n]] == os;
  }

  // ---- The connection callback

  /** What the callback's part of the state looks like, and what its steps leave alone. */
  ghost predicate Turns(s: State, steps: seq<Action>, s': State, cb: Callback, ring: seq<Point>, log: Log,
                        os: seq<Outcome>) {
    && Solo(s, steps, s')
    && s'.cb == cb && s'.ring == ring && s'.log == log
    && s'.connected == s.connected && s'.cap == s.cap && s'.ing == s.ing && s'.eg == s.eg && s'.drain == s.drain
    && s'.tally.ringPushes == s.tally.ringPushes
    && s'.tally.walSpills == s.tally.walSpills + Successes(os)
    && s'.tally.dropped == s.tally.dropped + Failures(os)
  }

  lemma ChainTurns(s: State, a: seq<Action>, mid: State, b: seq<Action>, s': State,
                   c: Callback, r: seq<Point>, l: Log, os: seq<Outcome>,
                   c': Callback, r': seq<Point>, l': Log, os': seq<Outcome>)
    requires Turns(s, a, mid, c, r, l, os) && Turns(mid, b, s', c', r', l', os')
    ensures Turns(s, a + b, s', c', r', l', os + os')
  {
    hide Solo, Failures, Successes;
    SoloConcat(s, a, mid, b, s');
    CountsConcat(os, os');
  }

  lemma CallbackRound(s: State, o: Outcome) returns (s': State)
    requires s.cb.DiscFlushing? && s.ring != [] && Possible(s.log, o)
    ensures Turns(s, [Cb(CbPop), Cb(CbWrite(o))], s', DiscFlushing, s.ring[1..], Written(s.log, s.ring[0], o), [o])
  {
    hide Written;
    var popped := Apply(s, Cb(CbPop));
    s' := Apply(popped, Cb(CbWrite(o)));
    SoloOne(s, Cb(CbPop));
    SoloOne(popped, Cb(CbWrite(o)));
    SoloConcat(s, [Cb(CbPop)], popped, [Cb(CbWrite(o))], s');
    assert [Cb(CbPop)] + [Cb(CbWrite(o))] == [Cb(CbPop), Cb(CbWrite(o))];
    OneWrite(o);
    hide Solo, Failures, Successes;
  }

  /** The flush the callback runs. */
  lemma {:induction false} CallbackFlushBySteps(s: State, os: seq<Outcome>, l': Log)
    returns (steps: seq<Action>, s': State)
    requires s.cb.DiscFlushing? && Writes(s.log, s.ring, os, l')
    ensures Turns(s, steps, s', DiscLeaving, [], l', os)
    decreases |s.ring|
  {
    hide Written, Possible, WellFormed, Failures, Successes, Solo;
    if s.ring == [] {
      steps, s' := [Cb(CbPop)], Apply(s, Cb(CbPop));
      SoloOne(s, Cb(CbPop));
      NoWrite();
    } else {
      var mid := CallbackRound(s, os[0]);
      var rest;
      rest, s' := CallbackFlushBySteps(mid, os[1..], l');
      hide Turns;
      steps := [Cb(CbPop), Cb(CbWrite(os[0]))] + rest;
      ChainTurns(s, [Cb(CbPop), Cb(CbWrite(os[0]))], mid, rest, s', DiscFlushing, s.ring[1..], mid.log, [os[0]],
                 DiscLeaving, [], l', os[1..]);
      assert [os[0]] + os[1..] == os;
    }
  }

  /** The callback going down, from the moment it has the mutex: the steps lead exactly where
      Manager.OnConnChange's contract says. */
  lemma DisconnectBySteps(s: State, os: seq<Outcome>, l': Log) returns (steps: seq<Action>, s': State)
    requires s.cb.DiscStores? && Writes(s.log, s.ring, os, l')
    ensures Solo(s, steps, s') && |steps| > 0 && steps[0] == Cb(CbStore)
    ensures Turns(s.(connected := false, cb := DiscFlushing), steps[1..], s', DiscLeaving, [], l', os)
  {
    hide Failures, Successes, Writes;
    var down := Apply(s, Cb(CbStore));
    assert down == s.(connected := false, cb := DiscFlushing);
    SoloOne(s, Cb(CbStore));
    var flush;
    flush, s' := CallbackFlushBySteps(down, os, l');
    hide Solo;
    SoloConcat(s, [Cb(CbStore)], down, flush, s');
    steps := [Cb(CbStore)] + flush;
    assert steps[1..] == flush;
  }

  // ---- Egress

  /** The critical section of egress: the steps lead exactly where Manager.TakeNext's contract says. The ring gives
      up a point only past an empty log. */
  lemma TakeNextBySteps(s: State) returns (steps: seq<Action>, s': State)
    requires s.eg.Checking?
    ensures Solo(s, steps, s')
    ensures s.log.segs != [] ==> s' == s.(eg := LeavingToDrain)
    ensures s.log.segs == [] && s.ring == [] ==> s' == s.(eg := LeavingEmpty)
    ensures s.log.segs == [] && s.ring != [] ==>
              s' == s.(ring := s.ring[1..], eg := LeavingWith(s.ring[0]),
                       tally := s.tally.(popped := s.tally.popped + 1))
  {
    var checked := Apply(s, Eg(EgCheck));
    SoloOne(s, Eg(EgCheck));
    steps, s' := [Eg(EgCheck)], checked;
    if s.log.segs == [] {
      s' := Apply(checked, Eg(EgPop));
      SoloOne(checked, Eg(EgPop));
      hide Solo;
      SoloConcat(s, [Eg(EgCheck)], checked, [Eg(EgPop)], s');
      steps := [Eg(EgCheck)] + [Eg(EgPop)];
    }
  }
}
