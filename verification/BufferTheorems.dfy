/** The main results about the buffer manager, over every interleaving. */
module BufferTheorems {
  import opened Seqs
  import opened Points
  import opened WalSpec
  import opened Pipeline
  import opened BufferModel
  import opened BufferProofs

  /** Everything that is kept, with the order of the whole pipeline measured against what came in. */
  ghost predicate Inv(s: State) {
    Locking(s) && Shape(s) && Conserved(s) && Wakeful(s) && Moves(s.recovered + s.admitted, [], Line(PartsOf(s)))
  }

  lemma InvStep(s: State, a: Action)
    requires Inv(s) && Enabled(s, a)
    ensures Inv(Apply(s, a))
    ensures Apply(s, a).recovered == s.recovered && Apply(s, a).admitted == s.admitted + Admitted(a)
  {
    hide Locking, Shape, Conserved, Wakeful, Moves, PartsOf, Line, Enabled, Apply;
    ShapeStep(s, a);
    ConserveStep(s, a);
    WakefulStep(s, a);
    OrderStep(s, a);
    MovesThrough(s.recovered + s.admitted, Line(PartsOf(s)), Admitted(a), Line(PartsOf(Apply(s, a))));
    assert s.recovered + s.admitted + Admitted(a) == s.recovered + (s.admitted + Admitted(a));
  }

  lemma InvInitial(s: State)
    requires Initial(s)
    ensures Inv(s)
  {
    var parts := PartsOf(s);
    assert Line(parts) == s.recovered + s.admitted;
    MovesSame(Line(parts));
  }

  /** The points a run admits, in order. */
  function AdmittedBy(actions: seq<Action>): seq<Point> {
    if actions == [] then [] else AdmittedBy(actions[..|actions| - 1]) + Admitted(actions[|actions| - 1])
  }

  lemma {:induction false} EveryRun(init: State, actions: seq<Action>, s: State)
    requires Run(init, actions, s)
    ensures Inv(s) && s.recovered == init.recovered && s.admitted == AdmittedBy(actions)
    decreases |actions|
  {
    hide Inv, Enabled, Apply, Initial;
    if actions == [] {
      InvInitial(s);
      StartsEmpty(s);
    } else {
      var n := |actions| - 1;
      var before :| Run(init, actions[..n], before) && Enabled(before, actions[n]) && s == Apply(before, actions[n]);
      EveryRun(init, actions[..n], before);
      InvStep(before, actions[n]);
    }
  }

  lemma StartsEmpty(s: State)
    requires Initial(s)
    ensures s.admitted == []
  {
  }

  /** Order. Under every interleaving of input, output, drains, disconnects, reconnects, failed writes, size
      pruning, corruption and cancellation, what has been put out is, up to the log's projection, an in-order
      selection of the recovered records followed by the admitted points: nothing is reordered, duplicated or
      invented. So is everything still on its way, put behind it. */
  lemma Order(init: State, actions: seq<Action>, s: State)
    requires Run(init, actions, s)
    ensures Subseq(AllStored(Line(PartsOf(s))), AllStored(init.recovered + AdmittedBy(actions)))
    ensures Subseq(AllStored(s.output), AllStored(init.recovered + AdmittedBy(actions)))
  {
    EveryRun(init, actions, s);
    var all, out := Line(PartsOf(s)), s.output;
    var origin := init.recovered + AdmittedBy(actions);
    assert origin + [] == origin;
    assert out <= all;
    assert AllStored(out) <= AllStored(all);
    SubseqPrefix(AllStored(out), AllStored(all));
    SubseqTrans(AllStored(out), AllStored(all), AllStored(origin));
  }

  /** How many points are gone for good. A point whose sync failed is counted as dropped and yet still there. */
  function Lost(t: Tally): int {
    t.dropped - t.unsynced + t.unreadable + t.pruned + t.damaged + t.orphaned + t.abandonedFiles + t.abandonedHand
  }

  /** None of the ways to lose a point has occurred. */
  ghost predicate NothingLost(t: Tally) {
    && t.dropped == t.unsynced && t.unreadable == t.pruned == t.damaged == 0
    && t.orphaned == t.abandonedFiles == t.abandonedHand == 0
  }

  /** No loss. Nothing is missing exactly when none of the ways to lose a point has occurred; then the output
      is a prefix of the input, and the rest of the input is the rest of the pipeline. */
  lemma NoLoss(init: State, actions: seq<Action>, s: State)
    requires Run(init, actions, s)
    ensures Lost(s.tally) >= 0 && (Lost(s.tally) == 0 <==> NothingLost(s.tally))
    ensures NothingLost(s.tally) <==>
            AllStored(Line(PartsOf(s))) == AllStored(init.recovered + AdmittedBy(actions))
    ensures NothingLost(s.tally) ==> AllStored(s.output) <= AllStored(init.recovered + AdmittedBy(actions))
  {
    EveryRun(init, actions, s);
    Order(init, actions, s);
    var all, origin := Line(PartsOf(s)), init.recovered + AdmittedBy(actions);
    LineSize(PartsOf(s));
    Balance(s);
    SubseqLength(AllStored(all), AllStored(origin));
    hide Subseq, AllStored, PartsOf;
    AllStoredPrefix(PartsOf(s));
  }

  lemma AllStoredPrefix(p: Parts)
    ensures AllStored(p.out) <= AllStored(Line(p))
  {
    assert p.out <= Line(p);
  }

  lemma LineSize(p: Parts)
    ensures |Line(p)| == Size(p)
  {
  }

  lemma Balance(s: State)
    requires Conserved(s)
    ensures Size(PartsOf(s)) + Lost(s.tally) == |s.recovered| + |s.admitted|
  {
    hide Flatten, InFiles, InChannel, Taken, FlushHand, EgHand;
  }

  /** The counters the manager reports, at every moment of every run: with nothing in hand, admitted points are
      those in the ring, those egress took from it, and the spills and drops; and spills plus recovered records
      are the drained ones, the ones still in a drain or in the log, and the enumerated losses. */
  lemma Counters(init: State, actions: seq<Action>, s: State)
    requires Run(init, actions, s)
    ensures var t := s.tally;
            && |AdmittedBy(actions)| == |s.ring| + t.popped + t.walSpills + t.dropped
                                        + |Taken(s.ing)| + |FlushHand(s.ing, s.cb)|
            && |init.recovered| + t.walSpills + t.unsynced
               == t.walDrained + |InChannel(s.drain)| + |InFiles(s.drain)| + |Flatten(s.log.segs)|
                  + t.unreadable + t.pruned + t.damaged + t.orphaned + t.abandonedFiles
            && t.popped + t.walDrained == |s.output| + |EgHand(s.eg)| + t.abandonedHand
  {
    EveryRun(init, actions, s);
  }

  /** What was pushed into the ring is in it, or was taken off it by egress or by a flush. */
  ghost predicate RingAccounted(s: State) {
    s.tally.ringPushes == |s.ring| + s.tally.popped + s.tally.flushed
  }

  lemma RingStep(s: State, a: Action)
    requires RingAccounted(s) && Enabled(s, a)
    ensures RingAccounted(Apply(s, a))
  {
    hide EnvEnabled, CbEnabled, InEnabled, EgEnabled, WdEnabled, DrEnabled, RingAccounted;
    hide EnvApply, CbApply, InApply, EgApply, WdApply, DrApply;
    match a
    case Env(e) => RingEnvironment(s, e);
    case Cb(c) => RingCallback(s, c);
    case In(i) => RingIngress(s, i);
    case Eg(e) => RingEgress(s, e);
    case Wd(w) => RingDrainWal(s, w);
    case Dr(d) => RingDrain(s, d);
  }

  lemma RingEnvironment(s: State, a: EnvStep)
    requires RingAccounted(s) && EnvEnabled(s, a)
    ensures RingAccounted(EnvApply(s, a))
  {
    hide Without;
    match a
    case Admit(_) =>
    case CloseInput =>
    case Disconnect =>
    case Reconnect =>
    case Receive =>
    case Cancel =>
    case DamageLog(_, _) =>
    case DamageRest(_, _) =>
    case DamageCurrent(_) =>
  }

  lemma RingCallback(s: State, a: CbStep)
    requires RingAccounted(s) && CbEnabled(s, a)
    ensures RingAccounted(CbApply(s, a))
  {
    hide Written, Counted;
    match a
    case CbLock =>
    case CbStore =>
    case CbPop =>
    case CbWrite(o) => CountedKeeps(s.tally, s.log, o);
    case CbUnlock =>
    case CbSignal =>
  }

  lemma RingIngress(s: State, a: InStep)
    requires RingAccounted(s) && InEnabled(s, a)
    ensures RingAccounted(InApply(s, a))
  {
    hide Written, Counted;
    match a
    case InStop =>
    case InLock =>
    case InLoad =>
    case InPush =>
    case InPop =>
    case InFlushWrite(o) => CountedKeeps(s.tally, s.log, o);
    case InWrite(o) => CountedKeeps(s.tally, s.log, o);
    case InUnlock =>
    case InSignal =>
  }

  lemma RingEgress(s: State, a: EgStep)
    requires RingAccounted(s) && EgEnabled(s, a)
    ensures RingAccounted(EgApply(s, a))
  {
    match a
    case EgLoad =>
    case EgConnWake =>
    case EgDataWake =>
    case EgLock =>
    case EgCheck =>
    case EgPop =>
    case EgUnlock =>
    case EgEmit =>
    case EgStop =>
  }

  lemma RingDrainWal(s: State, a: WdStep)
    requires RingAccounted(s) && WdEnabled(s, a)
    ensures RingAccounted(WdApply(s, a))
  {
    hide InFiles, InChannel;
    match a
    case WdCallDrain =>
    case WdReceive =>
    case WdEmit =>
    case WdReturn =>
    case WdAbandon =>
  }

  lemma RingDrain(s: State, a: DrStep)
    requires RingAccounted(s) && DrEnabled(s, a)
    ensures RingAccounted(DrApply(s, a))
  {
    hide InFiles;
    match a
    case DrOpen(_) =>
    case DrSend =>
    case DrFileDone =>
    case DrAbort =>
    case DrClose =>
  }

  lemma CountedKeeps(t: Tally, l: Log, o: Outcome)
    requires o.pruned <= |l.segs|
    ensures var t' := Counted(t, l, o);
            t'.ringPushes == t.ringPushes && t'.popped == t.popped && t'.flushed == t.flushed
  {
  }

  /** Every run keeps the ring's own balance. */
  lemma {:induction false} RingCounters(init: State, actions: seq<Action>, s: State)
    requires Run(init, actions, s)
    ensures s.tally.ringPushes == |s.ring| + s.tally.popped + s.tally.flushed
    decreases |actions|
  {
    if actions != [] {
      hide Enabled, Apply;
      var n := |actions| - 1;
      var before :| Run(init, actions[..n], before) && Enabled(before, actions[n]) && s == Apply(before, actions[n]);
      RingCounters(init, actions[..n], before);
      RingStep(before, actions[n]);
    }
  }

  /** The outcome of the log write that an action is: from ingress, or from either flush. */
  function WriteOf(a: Action): Option<Outcome> {
    if a.In? && a.ingress.InWrite? then Some(a.ingress.o)
    else if a.In? && a.ingress.InFlushWrite? then Some(a.ingress.o)
    else if a.Cb? && a.callback.CbWrite? then Some(a.callback.o)
    else None
  }

  /** The point it writes. */
  function PointOf(s: State, a: Action): (q: Point)
    requires WriteOf(a).Some? && (a.In? ==> s.ing.Direct? || s.ing.Spilling?) && (a.Cb? ==> s.cb.DiscSpilling?)
  {
    if a.Cb? then s.cb.q else if s.ing.Spilling? then s.ing.q else s.ing.p
  }

  /** All three write the same way. */
  lemma WriteApplies(s: State, a: Action)
    requires Enabled(s, a) && WriteOf(a).Some?
    ensures (a.In? ==> s.ing.Direct? || s.ing.Spilling?) && (a.Cb? ==> s.cb.DiscSpilling?)
    ensures var o := WriteOf(a).value;
            && Possible(s.log, o) && Apply(s, a).log == Written(s.log, PointOf(s, a), o)
            && Apply(s, a).tally == Counted(s.tally, s.log, o)
  {
    hide Written, Counted;
  }

  lemma LogIsWellFormed(s: State)
    requires Inv(s)
    ensures WellFormed(s.log)
  {
  }

  /** A point counted as dropped is gone exactly when its record was not appended, is over the reader's limit, or
      is behind one that is. Otherwise, its sync having failed, it is last in the log and drained like any other. */
  lemma DroppedIsGoneExactlyWhen(s: State, a: Action)
    requires Inv(s) && Enabled(s, a) && WriteOf(a).Some? && WriteOf(a).value.failed
    ensures (a.In? ==> s.ing.Direct? || s.ing.Spilling?) && (a.Cb? ==> s.cb.DiscSpilling?)
    ensures var o, now := WriteOf(a).value, Apply(s, a);
            && o.pruned <= |s.log.segs|
            && now.tally.dropped == s.tally.dropped + 1 && now.tally.walSpills == s.tally.walSpills
            && var rest := Flatten(s.log.segs[o.pruned..]);
            && Flatten(now.log.segs) in {rest, rest + [Stored(PointOf(s, a))]}
            && (Flatten(now.log.segs) == rest <==> !o.appended || !o.fits || (!o.rotated && !s.log.clear))
  {
    hide Inv, Enabled, Apply;
    LogIsWellFormed(s);
    WriteApplies(s, a);
    var o := WriteOf(a).value;
    WrittenContents(s.log, PointOf(s, a), o);
    hide Flatten, Written;
    var rest := Flatten(s.log.segs[o.pruned..]);
    assert rest + [] == rest && |rest + [Stored(PointOf(s, a))]| == |rest| + 1;
  }

  /** What a run's writes come to: those that failed, and those of them whose record was appended all the same. */
  function Failed(actions: seq<Action>): nat {
    if actions == [] then 0
    else
      var n := |actions| - 1;
      Failed(actions[..n]) + if WriteOf(actions[n]).Some? && WriteOf(actions[n]).value.failed then 1 else 0
  }

  function Lingering(actions: seq<Action>): (k: nat)
    ensures k <= Failed(actions)
  {
    if actions == [] then 0
    else
      var n, w := |actions| - 1, WriteOf(actions[|actions| - 1]);
      Lingering(actions[..n]) + if w.Some? && w.value.failed && w.value.appended then 1 else 0
  }

  /** No record appended is over the reader's limit. */
  predicate AllFit(actions: seq<Action>) {
    forall a :: a in actions && WriteOf(a).Some? && WriteOf(a).value.appended ==> WriteOf(a).value.fits
  }

  /** The other steps leave the drops alone, and an unobstructed log unobstructed. */
  ghost predicate DropsStay(s: State, now: State) {
    && now.tally.dropped == s.tally.dropped && now.tally.unsynced == s.tally.unsynced
    && now.tally.unreadable == s.tally.unreadable && (s.log.clear ==> now.log.clear)
  }

  lemma NoWriteApplies(s: State, a: Action)
    requires Enabled(s, a) && WriteOf(a).None?
    ensures DropsStay(s, Apply(s, a))
  {
    hide EnvEnabled, CbEnabled, InEnabled, EgEnabled, WdEnabled, DrEnabled, DropsStay;
    hide EnvApply, CbApply, InApply, EgApply, WdApply, DrApply;
    match a
    case Env(e) => DropsStayEnvironment(s, e);
    case Cb(c) => DropsStayCallback(s, c);
    case In(i) => DropsStayIngress(s, i);
    case Eg(e) => DropsStayEgress(s, e);
    case Wd(w) => DropsStayDrainWal(s, w);
    case Dr(d) => DropsStayDrain(s, d);
  }

  lemma DropsStayEnvironment(s: State, a: EnvStep)
    requires EnvEnabled(s, a)
    ensures DropsStay(s, EnvApply(s, a))
  {
    hide Without;
  }

  lemma DropsStayCallback(s: State, a: CbStep)
    requires CbEnabled(s, a) && !a.CbWrite?
    ensures DropsStay(s, CbApply(s, a))
  {
    hide Written, Counted;
  }

  lemma DropsStayIngress(s: State, a: InStep)
    requires InEnabled(s, a) && !a.InFlushWrite? && !a.InWrite?
    ensures DropsStay(s, InApply(s, a))
  {
    hide Written, Counted;
  }

  lemma DropsStayEgress(s: State, a: EgStep)
    requires EgEnabled(s, a)
    ensures DropsStay(s, EgApply(s, a))
  {
  }

  lemma DropsStayDrainWal(s: State, a: WdStep)
    requires WdEnabled(s, a)
    ensures DropsStay(s, WdApply(s, a))
  {
    hide InFiles, InChannel;
  }

  lemma DropsStayDrain(s: State, a: DrStep)
    requires DrEnabled(s, a)
    ensures DropsStay(s, DrApply(s, a))
  {
    hide InFiles;
  }

  /** The drops of a run are its failed writes, whatever becomes of their records. When no record is over the
      limit, nothing counted as spilled is out of reach, and the points dropped and yet there are those of the failed
      writes whose record was appended; so what is counted as dropped is gone exactly when there is no such write. */
  lemma {:induction false} DropsOfRun(init: State, actions: seq<Action>, s: State)
    requires Run(init, actions, s)
    ensures s.tally.dropped == Failed(actions) && s.tally.unsynced <= Lingering(actions)
    ensures AllFit(actions) ==> s.log.clear && s.tally.unreadable == 0 && s.tally.unsynced == Lingering(actions)
    decreases |actions|
  {
    if actions != [] {
      hide Enabled, Apply, Written, Flatten;
      var n := |actions| - 1;
      var before :| Run(init, actions[..n], before) && Enabled(before, actions[n]) && s == Apply(before, actions[n]);
      DropsOfRun(init, actions[..n], before);
      assert AllFit(actions) ==> AllFit(actions[..n]) && actions[n] in actions;
      if WriteOf(actions[n]).Some? {
        WriteApplies(before, actions[n]);
        WrittenClear(before.log, PointOf(before, actions[n]), WriteOf(actions[n]).value);
      } else {
        NoWriteApplies(before, actions[n]);
      }
    }
  }

  lemma WrittenClear(l: Log, q: Point, o: Outcome)
    requires Possible(l, o)
    ensures Written(l, q, o).clear == ((o.rotated || l.clear) && (o.appended ==> o.fits))
  {
  }
}
