/** What every interleaving of the buffer manager keeps: order, conservation, and no lost wake-up. */
module BufferProofs {
  import opened Seqs
  import opened Points
  import opened WalSpec
  import opened Pipeline
  import opened BufferModel

  // ---------- Locking and shape ----------

  ghost predicate InCritical(i: Ingress) {
    i.Entered? || i.Offering? || i.Flushing? || i.Spilling? || i.Direct? || i.Leaving?
  }

  ghost predicate EgCritical(e: Egress) {
    e.Checking? || e.Popping? || e.LeavingToDrain? || e.LeavingWith? || e.LeavingEmpty?
  }

  ghost predicate CbCritical(c: Callback) {
    c.DiscStores? || c.DiscFlushing? || c.DiscSpilling? || c.DiscLeaving?
  }

  ghost predicate Locking(s: State) {
    && (s.holder.IngressHolds? <==> InCritical(s.ing))
    && (s.holder.EgressHolds? <==> EgCritical(s.eg))
    && (s.holder.CallbackHolds? <==> CbCritical(s.cb))
  }

  /** The facts that keep the order. While disconnected, and unless a flush is under way, the ring is empty;
      ingress writes to the log directly only past an empty ring; egress pops the ring only past an empty log. */
  ghost predicate Shape(s: State) {
    && s.cap > 0 && |s.ring| <= s.cap && WellFormed(s.log)
    && (!s.connected && !s.cb.DiscFlushing? && !s.cb.DiscSpilling? ==> s.ring == [])
    && (s.ing.Offering? ==> s.connected)
    && (s.ing.Direct? ==> s.ring == [])
    && (s.eg.Popping? ==> s.log.segs == [])
    && (s.drain.Draining? <==> s.eg.Receiving? || s.eg.EmittingDrained?)
    && (s.drain.Draining? && s.drain.closed ==> s.drain.cur.None? && s.drain.rest == [])
    && |InChannel(s.drain)| <= CHANNEL
    && s.received <= |s.output| <= s.received + CHANNEL
  }

  lemma ShapeStep(s: State, a: Action)
    requires Locking(s) && Shape(s) && Enabled(s, a)
    ensures Locking(Apply(s, a)) && Shape(Apply(s, a))
  {
    hide EnvEnabled, CbEnabled, InEnabled, EgEnabled, WdEnabled, DrEnabled;
    hide EnvApply, CbApply, InApply, EgApply, WdApply, DrApply;
    hide Locking, Shape;
    match a
    case Env(e) => ShapeEnvironment(s, e);
    case Cb(c) => ShapeCallback(s, c);
    case In(i) => ShapeIngress(s, i);
    case Eg(e) => ShapeEgress(s, e);
    case Wd(w) => ShapeDrainWal(s, w);
    case Dr(d) => ShapeDrain(s, d);
  }

  lemma ShapeEnvironment(s: State, a: EnvStep)
    requires Locking(s) && Shape(s) && EnvEnabled(s, a)
    ensures Locking(EnvApply(s, a)) && Shape(EnvApply(s, a))
  {
    hide Flatten, InFiles;
  }

  lemma ShapeCallback(s: State, a: CbStep)
    requires Locking(s) && Shape(s) && CbEnabled(s, a)
    ensures Locking(CbApply(s, a)) && Shape(CbApply(s, a))
  {
    match a
    case CbLock =>
    case CbStore =>
    case CbPop =>
    case CbWrite(o) => WrittenContents(s.log, s.cb.q, o);
    case CbUnlock =>
    case CbSignal =>
  }

  lemma ShapeIngress(s: State, a: InStep)
    requires Locking(s) && Shape(s) && InEnabled(s, a)
    ensures Locking(InApply(s, a)) && Shape(InApply(s, a))
  {
    match a
    case InStop =>
    case InLock =>
    case InLoad =>
    case InPush =>
    case InPop =>
    case InFlushWrite(o) => WrittenContents(s.log, s.ing.q, o);
    case InWrite(o) => WrittenContents(s.log, s.ing.p, o);
    case InUnlock =>
    case InSignal =>
  }

  lemma ShapeEgress(s: State, a: EgStep)
    requires Locking(s) && Shape(s) && EgEnabled(s, a)
    ensures Locking(EgApply(s, a)) && Shape(EgApply(s, a))
  {
    hide Flatten, InFiles;
    match a
    case EgLoad =>
    case EgConnWake =>
    case EgDataWake =>
    case EgLock =>
    case EgCheck =>
    case EgPop =>
    case EgUnlock =>
    case EgEmit =>
    case EgStop =>
  }

  lemma ShapeDrainWal(s: State, a: WdStep)
    requires Locking(s) && Shape(s) && WdEnabled(s, a)
    ensures Locking(WdApply(s, a)) && Shape(WdApply(s, a))
  {
    hide Flatten, InFiles;
    match a
    case WdCallDrain =>
    case WdReceive =>
    case WdEmit =>
    case WdReturn =>
    case WdAbandon =>
  }

  lemma ShapeDrain(s: State, a: DrStep)
    requires Locking(s) && Shape(s) && DrEnabled(s, a)
    ensures Locking(DrApply(s, a)) && Shape(DrApply(s, a))
  {
    hide Flatten, InFiles;
    match a
    case DrOpen(ok) => if ok {} else {}
    case DrSend =>
    case DrFileDone =>
    case DrAbort =>
    case DrClose =>
  }

  // ---------- Order ----------

  /** The point ingress has taken and not yet placed. */
  function Taken(i: Ingress): seq<Point> {
    match i
    case Wants(p) => [p]
    case Entered(p) => [p]
    case Offering(p) => [p]
    case Flushing(p) => [p]
    case Spilling(p, _) => [p]
    case Direct(p) => [p]
    case _ => []
  }

  /** The point a flush has popped and not yet written; connMu allows one flush at a time. */
  function FlushHand(i: Ingress, c: Callback): seq<Point> {
    if i.Spilling? then [i.q] else if c.DiscSpilling? then [c.q] else []
  }

  /** The point egress has taken and not yet put out. */
  function EgHand(e: Egress): seq<Point> {
    match e
    case LeavingWith(p) => [p]
    case Emitting(p) => [p]
    case EmittingDrained(p) => [p]
    case _ => []
  }

  /** Where every point is. */
  function PartsOf(s: State): Parts {
    Parts(s.output, EgHand(s.eg), InChannel(s.drain), InFiles(s.drain), Flatten(s.log.segs),
          FlushHand(s.ing, s.cb), s.ring, Taken(s.ing))
  }

  /** The points an action admits. */
  function Admitted(a: Action): seq<Point> {
    if a.Env? && a.env.Admit? then [a.env.p] else []
  }

  lemma OrderCallback(s: State, a: CbStep)
    requires Locking(s) && Shape(s) && CbEnabled(s, a)
    ensures Moves(Line(PartsOf(s)), [], Line(PartsOf(CbApply(s, a))))
  {
    hide Flatten, Moves, Written, Possible, Counted, Line, InFiles;
    var was, now := PartsOf(s), PartsOf(CbApply(s, a));
    MovesSame(Line(was));
    match a
    case CbLock =>
    case CbStore =>
    case CbPop => if |s.ring| > 0 { FlushPop(was, now); }
    case CbWrite(o) => Spill(was, s.log, s.cb.q, o, now);
    case CbUnlock =>
    case CbSignal =>
  }

  lemma OrderIngress(s: State, a: InStep)
    requires Locking(s) && Shape(s) && InEnabled(s, a)
    ensures Moves(Line(PartsOf(s)), [], Line(PartsOf(InApply(s, a))))
  {
    hide Flatten, Moves, Written, Possible, Counted, Line, InFiles;
    var was, now := PartsOf(s), PartsOf(InApply(s, a));
    MovesSame(Line(was));
    match a
    case InStop =>
    case InLock =>
    case InLoad =>
    case InPush => if |s.ring| < s.cap { Push(was, now); }
    case InPop => if |s.ring| > 0 { FlushPop(was, now); }
    case InFlushWrite(o) => Spill(was, s.log, s.ing.q, o, now);
    case InWrite(o) => SpillDirectly(was, s.log, s.ing.p, o, now);
    case InUnlock =>
    case InSignal =>
  }

  lemma OrderEgress(s: State, a: EgStep)
    requires Locking(s) && Shape(s) && EgEnabled(s, a)
    ensures Moves(Line(PartsOf(s)), [], Line(PartsOf(EgApply(s, a))))
  {
    hide Moves, Line;
    var was, now := PartsOf(s), PartsOf(EgApply(s, a));
    MovesSame(Line(was));
    match a
    case EgLoad =>
    case EgConnWake =>
    case EgDataWake =>
    case EgLock =>
    case EgCheck =>
    case EgPop => if |s.ring| > 0 { TakeFromRing(was, now); }
    case EgUnlock =>
    case EgEmit => Emit(was, now);
    case EgStop => LoseHand(was, now);
  }

  lemma OrderDrainWal(s: State, a: WdStep)
    requires Locking(s) && Shape(s) && WdEnabled(s, a)
    ensures Moves(Line(PartsOf(s)), [], Line(PartsOf(WdApply(s, a))))
  {
    assert Flatten<Point>([]) == [];
    hide Moves, Line, Flatten;
    var was, now := PartsOf(s), PartsOf(WdApply(s, a));
    MovesSame(Line(was));
    match a
    case WdCallDrain => TakeOver(was, now);
    case WdReceive => TakeFromChannel(was, now);
    case WdEmit => Emit(was, now);
    case WdReturn => assert now == was;
    case WdAbandon => LoseDrain(was, now);
  }

  lemma OrderDrain(s: State, a: DrStep)
    requires Locking(s) && Shape(s) && DrEnabled(s, a)
    ensures Moves(Line(PartsOf(s)), [], Line(PartsOf(DrApply(s, a))))
  {
    hide Moves, Line;
    var was, now := PartsOf(s), PartsOf(DrApply(s, a));
    MovesSame(Line(was));
    match a
    case DrOpen(ok) =>
      if ok {
        assert now.files == was.files;
      } else {
        LoseFiles(was, [], was.files, [], now);
      }
    case DrSend => FillChannel(was, now);
    case DrFileDone =>
    case DrAbort => LoseFiles(was, [], was.files, [], now);
    case DrClose =>
  }

  lemma OrderEnvironment(s: State, a: EnvStep)
    requires Locking(s) && Shape(s) && EnvEnabled(s, a)
    ensures Moves(Line(PartsOf(s)), Admitted(Env(a)), Line(PartsOf(EnvApply(s, a))))
  {
    hide Moves, Line, Flatten;
    var was, now := PartsOf(s), PartsOf(EnvApply(s, a));
    MovesSame(Line(was));
    match a
    case Admit(p) => Take(was, p, now);
    case CloseInput =>
    case Disconnect =>
    case Reconnect =>
    case Receive =>
    case Cancel =>
    case DamageLog(i, j) =>
      var b, c := LoseOne(s.log.segs, i, j);
      LoseLog(was, b, [s.log.segs[i][j]], c, now);
    case DamageRest(i, j) =>
      var b, c := LoseOne(s.drain.rest, i, j);
      var cur := if s.drain.cur.Some? then s.drain.cur.value else [];
      LoseFiles(was, cur + b, [s.drain.rest[i][j]], c, now);
    case DamageCurrent(j) =>
      var cur := s.drain.cur.value;
      LoseFiles(was, cur[..j], [cur[j]], cur[j + 1..] + Flatten(s.drain.rest), now);
  }

  lemma OrderStep(s: State, a: Action)
    requires Locking(s) && Shape(s) && Enabled(s, a)
    ensures Moves(Line(PartsOf(s)), Admitted(a), Line(PartsOf(Apply(s, a))))
  {
    hide EnvEnabled, CbEnabled, InEnabled, EgEnabled, WdEnabled, DrEnabled;
    hide EnvApply, CbApply, InApply, EgApply, WdApply, DrApply, Locking, Shape, Line, PartsOf, Moves;
    match a
    case Env(e) => OrderEnvironment(s, e);
    case Cb(c) => OrderCallback(s, c);
    case In(i) => OrderIngress(s, i);
    case Eg(e) => OrderEgress(s, e);
    case Wd(w) => OrderDrainWal(s, w);
    case Dr(d) => OrderDrain(s, d);
  }

  // ---------- Conservation ----------

  /** Every admitted point is in the ring, went through it to egress, went to the log, was dropped, or is in
      the hands of ingress or of a flush. Of those dropped, some may be in the log all the same. */
  ghost predicate AdmittedAccounted(s: State) {
    && |s.admitted| == |s.ring| + s.tally.popped + s.tally.walSpills + s.tally.dropped
                       + |Taken(s.ing)| + |FlushHand(s.ing, s.cb)|
    && s.tally.unsynced <= s.tally.dropped
  }

  /** Every record that was ever readable in the log has been drained, is still on its way, or was lost in a
      way that is counted. */
  ghost predicate LoggedAccounted(s: State) {
    |s.recovered| + s.tally.walSpills + s.tally.unsynced
    == s.tally.unreadable + s.tally.walDrained + |InChannel(s.drain)| + |InFiles(s.drain)| + |Flatten(s.log.segs)|
       + s.tally.pruned + s.tally.damaged + s.tally.orphaned + s.tally.abandonedFiles
  }

  /** Every point egress took was put out, is in its hand, or was in its hand at a cancellation. */
  ghost predicate OutputAccounted(s: State) {
    s.tally.popped + s.tally.walDrained == |s.output| + |EgHand(s.eg)| + s.tally.abandonedHand
  }

  ghost predicate Conserved(s: State) {
    AdmittedAccounted(s) && LoggedAccounted(s) && OutputAccounted(s)
  }

  /** One log write, whatever its outcome, counts its point once and moves or loses records one for one. */
  lemma CountedWrite(t: Tally, l: Log, q: Point, o: Outcome)
    requires WellFormed(l) && Possible(l, o)
    ensures var t' := Counted(t, l, o);
            && t'.walSpills + t'.dropped == t.walSpills + t.dropped + 1
            && t'.dropped - t'.unsynced >= t.dropped - t.unsynced
            && t'.walSpills + t'.unsynced + t.unreadable + |Flatten(l.segs)| + t.pruned
               == t.walSpills + t.unsynced + t'.unreadable + |Flatten(Written(l, q, o).segs)| + t'.pruned
            && t'.popped == t.popped && t'.walDrained == t.walDrained && t'.damaged == t.damaged
            && t'.orphaned == t.orphaned && t'.abandonedFiles == t.abandonedFiles
            && t'.abandonedHand == t.abandonedHand
  {
    WrittenContents(l, q, o);
    hide Flatten, Written;
  }

  lemma ConserveCallback(s: State, a: CbStep)
    requires Locking(s) && Shape(s) && CbEnabled(s, a) && Conserved(s)
    ensures Conserved(CbApply(s, a))
  {
    hide Flatten, Written, Counted, InFiles, InChannel;
    match a
    case CbLock =>
    case CbStore =>
    case CbPop =>
    case CbWrite(o) => CountedWrite(s.tally, s.log, s.cb.q, o);
    case CbUnlock =>
    case CbSignal =>
  }

  lemma ConserveIngress(s: State, a: InStep)
    requires Locking(s) && Shape(s) && InEnabled(s, a) && Conserved(s)
    ensures Conserved(InApply(s, a))
  {
    hide Flatten, Written, Counted, InFiles, InChannel;
    match a
    case InStop =>
    case InLock =>
    case InLoad =>
    case InPush =>
    case InPop =>
    case InFlushWrite(o) => CountedWrite(s.tally, s.log, s.ing.q, o);
    case InWrite(o) => CountedWrite(s.tally, s.log, s.ing.p, o);
    case InUnlock =>
    case InSignal =>
  }

  lemma ConserveEgress(s: State, a: EgStep)
    requires Locking(s) && Shape(s) && EgEnabled(s, a) && Conserved(s)
    ensures Conserved(EgApply(s, a))
  {
    hide Flatten, InFiles, InChannel;
    match a
    case EgLoad =>
    case EgConnWake =>
    case EgDataWake =>
    case EgLock =>
    case EgCheck =>
    case EgPop =>
    case EgUnlock =>
    case EgEmit =>
    case EgStop =>
  }

  lemma ConserveDrainWal(s: State, a: WdStep)
    requires Locking(s) && Shape(s) && WdEnabled(s, a) && Conserved(s)
    ensures Conserved(WdApply(s, a))
  {
    assert Flatten<Point>([]) == [];
    hide Flatten;
    match a
    case WdCallDrain => assert InFiles(s.drain) == [];
    case WdReceive =>
    case WdEmit =>
    case WdReturn => assert InFiles(s.drain) == [];
    case WdAbandon =>
  }

  lemma ConserveDrain(s: State, a: DrStep)
    requires Locking(s) && Shape(s) && DrEnabled(s, a) && Conserved(s)
    ensures Conserved(DrApply(s, a))
  {
    hide Taken, FlushHand, EgHand;
    match a
    case DrOpen(ok) => if ok {} else {}
    case DrSend =>
    case DrFileDone =>
    case DrAbort =>
    case DrClose =>
  }

  lemma ConserveEnvironment(s: State, a: EnvStep)
    requires Locking(s) && Shape(s) && EnvEnabled(s, a) && Conserved(s)
    ensures Conserved(EnvApply(s, a))
  {
    hide Flatten;
    match a
    case Admit(p) =>
    case CloseInput =>
    case Disconnect =>
    case Reconnect =>
    case Receive =>
    case Cancel =>
    case DamageLog(i, j) =>
      var b, c := LoseOne(s.log.segs, i, j);
    case DamageRest(i, j) =>
      var b, c := LoseOne(s.drain.rest, i, j);
    case DamageCurrent(j) =>
  }

  lemma ConserveStep(s: State, a: Action)
    requires Locking(s) && Shape(s) && Enabled(s, a) && Conserved(s)
    ensures Conserved(Apply(s, a))
  {
    hide EnvEnabled, CbEnabled, InEnabled, EgEnabled, WdEnabled, DrEnabled;
    hide EnvApply, CbApply, InApply, EgApply, WdApply, DrApply, Locking, Shape, Conserved;
    match a
    case Env(e) => ConserveEnvironment(s, e);
    case Cb(c) => ConserveCallback(s, c);
    case In(i) => ConserveIngress(s, i);
    case Eg(e) => ConserveEgress(s, e);
    case Wd(w) => ConserveDrainWal(s, w);
    case Dr(d) => ConserveDrain(s, d);
  }

  // ---------- No lost wake-up ----------

  /** When egress sleeps, either there is nothing to wake up for or a token is there or about to be posted. */
  ghost predicate Wakeful(s: State) {
    && (s.eg.AwaitConn? ==> !s.connected || s.connToken || s.cb.ConnSignals?)
    && (s.eg.LeavingEmpty? || s.eg.AwaitData? ==>
          || (|s.ring| == 0 && |s.log.segs| == 0 && !s.cb.DiscSpilling?)
          || s.dataToken || InCritical(s.ing) || s.ing.Signalling?)
    && (s.eg.Popping? || s.eg.LeavingEmpty? ==> !InCritical(s.ing))
    && (s.ing.NotStarted? ==> s.eg.CallingDrain? || s.eg.Receiving? || s.eg.EmittingDrained?)
    && (s.eg.EgEnded? ==> s.cancelled)
  }

  lemma WakefulStep(s: State, a: Action)
    requires Locking(s) && Shape(s) && Enabled(s, a) && Wakeful(s)
    ensures Wakeful(Apply(s, a))
  {
    hide EnvEnabled, CbEnabled, InEnabled, EgEnabled, WdEnabled, DrEnabled;
    hide EnvApply, CbApply, InApply, EgApply, WdApply, DrApply, Locking, Shape, Wakeful;
    match a
    case Env(e) => WakefulEnvironment(s, e);
    case Cb(c) => WakefulCallback(s, c);
    case In(i) => WakefulIngress(s, i);
    case Eg(e) => WakefulEgress(s, e);
    case Wd(w) => WakefulDrainWal(s, w);
    case Dr(d) => WakefulDrain(s, d);
  }

  lemma WakefulEnvironment(s: State, a: EnvStep)
    requires EnvEnabled(s, a) && Wakeful(s)
    ensures Wakeful(EnvApply(s, a))
  {
    hide Flatten, Without;
  }

  lemma WakefulCallback(s: State, a: CbStep)
    requires Locking(s) && Shape(s) && CbEnabled(s, a) && Wakeful(s)
    ensures Wakeful(CbApply(s, a))
  {
    hide Counted, Flatten;
    match a
    case CbLock =>
    case CbStore =>
    case CbPop =>
    case CbWrite(o) =>
    case CbUnlock =>
    case CbSignal =>
  }

  lemma WakefulIngress(s: State, a: InStep)
    requires Locking(s) && Shape(s) && InEnabled(s, a) && Wakeful(s)
    ensures Wakeful(InApply(s, a))
  {
    hide Counted, Flatten, Written;
    match a
    case InStop =>
    case InLock =>
    case InLoad =>
    case InPush =>
    case InPop =>
    case InFlushWrite(o) =>
    case InWrite(o) =>
    case InUnlock =>
    case InSignal =>
  }

  lemma WakefulEgress(s: State, a: EgStep)
    requires Locking(s) && Shape(s) && EgEnabled(s, a) && Wakeful(s)
    ensures Wakeful(EgApply(s, a))
  {
    match a
    case EgLoad =>
    case EgConnWake =>
    case EgDataWake =>
    case EgLock =>
    case EgCheck =>
    case EgPop =>
    case EgUnlock =>
    case EgEmit =>
    case EgStop =>
  }

  lemma WakefulDrainWal(s: State, a: WdStep)
    requires WdEnabled(s, a) && Wakeful(s)
    ensures Wakeful(WdApply(s, a))
  {
    hide InFiles, InChannel;
    match a
    case WdCallDrain =>
    case WdReceive =>
    case WdEmit =>
    case WdReturn =>
    case WdAbandon =>
  }

  lemma WakefulDrain(s: State, a: DrStep)
    requires DrEnabled(s, a) && Wakeful(s)
    ensures Wakeful(DrApply(s, a))
  {
    hide InFiles, InChannel;
    match a
    case DrOpen(ok) => if ok {} else {}
    case DrSend =>
    case DrFileDone =>
    case DrAbort =>
    case DrClose =>
  }
}
