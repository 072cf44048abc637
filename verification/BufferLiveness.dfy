/** Delivery: how long the buffer manager can go on without new input, and what has happened when it stops. */
module BufferLiveness {
  import opened Seqs
  import opened Points
  import opened WalSpec
  import opened Pipeline
  import opened BufferModel
  import opened BufferProofs
  import opened BufferTheorems

  /** The manager's own steps, and the sender receiving what is put out. */
  ghost predicate Progressing(a: Action) {
    a.Env? ==> a.env.Receive?
  }

  function IngressWeight(i: Ingress): nat {
    match i
    case NotStarted => 2
    case Idle => 1
    case Wants(_) => 15
    case Entered(_) => 14
    case Offering(_) => 13
    case Flushing(_) => 12
    case Spilling(_, _) => 12
    case Direct(_) => 11
    case Leaving => 10
    case Signalling => 9
    case InEnded => 0
  }

  /** A drain that was decided on for segments pruned away in the meantime still takes a turn. */
  function EgressWeight(e: Egress, noSegments: bool): nat {
    match e
    case Top => 8
    case AwaitConn => 3
    case WantsLock => 7
    case Checking => 6
    case Popping => 5
    case LeavingToDrain => if noSegments then 35 else 5
    case LeavingWith(_) => 4
    case LeavingEmpty => 4
    case Emitting(_) => 3
    case CallingDrain => if noSegments then 34 else 4
    case Receiving => 15
    case EmittingDrained(_) => 15
    case AwaitData => 2
    case EgEnded => 0
  }

  function CallbackWeight(c: Callback): nat {
    match c
    case Quiet => 0
    case DiscWants => 5
    case DiscStores => 4
    case DiscFlushing => 3
    case DiscSpilling(_) => 3
    case DiscLeaving => 2
    case ConnSignals => 8
  }

  function DrainWeight(d: Drain): nat {
    300 * |InFiles(d)| + 200 * |InChannel(d)|
    + if d.NoDrain? then 0 else (if d.closed then 0 else 3) + (if d.cur.Some? then 10 else 0) + 20 * |d.rest|
  }

  function LogWeight(l: Log, e: Egress): nat {
    400 * |Flatten(l.segs)| + 40 * |l.segs| + EgressWeight(e, |l.segs| == 0)
  }

  function Token(posted: bool): nat {
    if posted then 7 else 0
  }

  /** An upper bound on the number of progressing steps left: a point weighs more the further back it is, a
      segment costs what it takes to open and finish it, a token one more round of egress. */
  ghost function Measure(s: State): nat
    requires s.received <= |s.output|
  {
    700 * |Taken(s.ing)| + 600 * |s.ring| + 500 * |FlushHand(s.ing, s.cb)| + LogWeight(s.log, s.eg)
    + DrainWeight(s.drain) + 100 * |EgHand(s.eg)| + 10 * (|s.output| - s.received)
    + IngressWeight(s.ing) + CallbackWeight(s.cb) + Token(s.connToken) + Token(s.dataToken)
  }

  lemma MeasureWrite(l: Log, q: Point, o: Outcome, e: Egress)
    requires WellFormed(l) && Possible(l, o)
    ensures LogWeight(Written(l, q, o), e) <= LogWeight(l, e) + 440
  {
    WrittenContents(l, q, o);
    hide Flatten;
  }

  lemma MeasureIngress(s: State, a: InStep)
    requires Locking(s) && Shape(s) && InEnabled(s, a)
    ensures InApply(s, a).received <= |InApply(s, a).output| && Measure(InApply(s, a)) < Measure(s)
  {
    hide Measure, InApply, InEnabled, Locking;
    match a
    case InStop => MeasureInTurn(s, a);
    case InLock => MeasureInTurn(s, a);
    case InLoad => MeasureInTurn(s, a);
    case InPush => MeasureInRing(s, a);
    case InPop => MeasureInRing(s, a);
    case InFlushWrite(o) => MeasureInWrite(s, a);
    case InWrite(o) => MeasureInWrite(s, a);
    case InUnlock => MeasureInTurn(s, a);
    case InSignal => MeasureInTurn(s, a);
  }

  lemma MeasureInTurn(s: State, a: InStep)
    requires Locking(s) && Shape(s) && InEnabled(s, a)
    requires a.InStop? || a.InLock? || a.InLoad? || a.InUnlock? || a.InSignal?
    ensures var r := InApply(s, a); r.received <= |r.output| && Measure(r) < Measure(s)
  {
    hide EgHand, DrainWeight, LogWeight, CallbackWeight;
  }

  lemma MeasureInRing(s: State, a: InStep)
    requires Locking(s) && Shape(s) && InEnabled(s, a) && (a.InPush? || a.InPop?)
    ensures var r := InApply(s, a); r.received <= |r.output| && Measure(r) < Measure(s)
  {
    hide EgHand, DrainWeight, LogWeight, CallbackWeight;
  }

  lemma MeasureInWrite(s: State, a: InStep)
    requires Locking(s) && Shape(s) && InEnabled(s, a) && (a.InFlushWrite? || a.InWrite?)
    ensures var r := InApply(s, a); r.received <= |r.output| && Measure(r) < Measure(s)
  {
    hide Written, Counted, EgHand, DrainWeight, LogWeight, CallbackWeight;
    MeasureWrite(s.log, if a.InWrite? then s.ing.p else s.ing.q, a.o, s.eg);
  }

  lemma MeasureCallback(s: State, a: CbStep)
    requires Locking(s) && Shape(s) && CbEnabled(s, a)
    ensures CbApply(s, a).received <= |CbApply(s, a).output| && Measure(CbApply(s, a)) < Measure(s)
  {
    hide Written, Counted, EgHand, DrainWeight, LogWeight, IngressWeight, Taken;
    match a
    case CbLock =>
    case CbStore =>
    case CbPop =>
    case CbWrite(o) => MeasureWrite(s.log, s.cb.q, o, s.eg);
    case CbUnlock =>
    case CbSignal =>
  }

  lemma MeasureEgress(s: State, a: EgStep)
    requires Locking(s) && Shape(s) && EgEnabled(s, a)
    ensures EgApply(s, a).received <= |EgApply(s, a).output| && Measure(EgApply(s, a)) < Measure(s)
  {
    hide Measure, EgApply, EgEnabled, Locking;
    match a
    case EgLoad => MeasureTurn(s, a);
    case EgConnWake => MeasureTurn(s, a);
    case EgDataWake => MeasureTurn(s, a);
    case EgLock => MeasureTurn(s, a);
    case EgCheck => MeasureTurn(s, a);
    case EgPop => MeasureHand(s, a);
    case EgUnlock => MeasureHand(s, a);
    case EgEmit => MeasureHand(s, a);
    case EgStop => MeasureHand(s, a);
  }

  lemma MeasureTurn(s: State, a: EgStep)
    requires Locking(s) && Shape(s) && EgEnabled(s, a)
    requires a.EgLoad? || a.EgConnWake? || a.EgDataWake? || a.EgLock? || a.EgCheck?
    ensures EgApply(s, a).received <= |EgApply(s, a).output| && Measure(EgApply(s, a)) < Measure(s)
  {
    hide Flatten, DrainWeight, Taken, FlushHand, IngressWeight, CallbackWeight;
  }

  lemma MeasureHand(s: State, a: EgStep)
    requires Locking(s) && Shape(s) && EgEnabled(s, a)
    requires a.EgPop? || a.EgUnlock? || a.EgEmit? || a.EgStop?
    ensures EgApply(s, a).received <= |EgApply(s, a).output| && Measure(EgApply(s, a)) < Measure(s)
  {
    hide Flatten, DrainWeight, Taken, FlushHand, IngressWeight, CallbackWeight;
  }

  /** How the weight of a drain changes on one step of drainWAL. */
  lemma DrainWalWeight(s: State, a: WdStep)
    requires Shape(s) && WdEnabled(s, a)
    ensures var d := WdApply(s, a).drain;
            match a
            case WdCallDrain => DrainWeight(s.drain) == 0 &&
                                DrainWeight(d) == 300 * |Flatten(s.log.segs)| + 20 * |s.log.segs| + 3
            case WdReceive => DrainWeight(d) == DrainWeight(s.drain) - 200
            case WdEmit => d == s.drain
            case WdReturn => DrainWeight(d) == 0
            case WdAbandon => DrainWeight(d) == 0
  {
    hide Flatten;
    match a
    case WdCallDrain =>
    case WdReceive =>
    case WdEmit =>
    case WdReturn =>
    case WdAbandon =>
  }

  lemma MeasureDrainWal(s: State, a: WdStep)
    requires Locking(s) && Shape(s) && WdEnabled(s, a)
    ensures WdApply(s, a).received <= |WdApply(s, a).output| && Measure(WdApply(s, a)) < Measure(s)
  {
    hide Measure, WdApply, WdEnabled, Locking;
    match a
    case WdCallDrain => MeasureCallDrain(s);
    case WdReceive => MeasureTransfer(s, a);
    case WdEmit => MeasureTransfer(s, a);
    case WdReturn => MeasureReturn(s, a);
    case WdAbandon => MeasureReturn(s, a);
  }

  lemma MeasureCallDrain(s: State)
    requires Shape(s) && WdEnabled(s, WdCallDrain)
    ensures var r := WdApply(s, WdCallDrain); r.received <= |r.output| && Measure(r) < Measure(s)
  {
    DrainWalWeight(s, WdCallDrain);
    assert Flatten<Point>([]) == [];
    hide Flatten, DrainWeight, Taken, FlushHand, CallbackWeight, IngressWeight;
  }

  lemma MeasureTransfer(s: State, a: WdStep)
    requires Shape(s) && WdEnabled(s, a) && (a.WdReceive? || a.WdEmit?)
    ensures var r := WdApply(s, a); r.received <= |r.output| && Measure(r) < Measure(s)
  {
    DrainWalWeight(s, a);
    hide Flatten, DrainWeight, Taken, FlushHand, CallbackWeight, IngressWeight;
  }

  lemma MeasureReturn(s: State, a: WdStep)
    requires Shape(s) && WdEnabled(s, a) && (a.WdReturn? || a.WdAbandon?)
    ensures var r := WdApply(s, a); r.received <= |r.output| && Measure(r) < Measure(s)
  {
    DrainWalWeight(s, a);
    ReturnWeights(s, a);
    hide Flatten, DrainWeight, FlushHand, CallbackWeight, InFiles, InChannel, Taken, EgHand, LogWeight, IngressWeight;
  }

  lemma ReturnWeights(s: State, a: WdStep)
    requires Shape(s) && WdEnabled(s, a) && (a.WdReturn? || a.WdAbandon?)
    ensures var r := WdApply(s, a);
            && Taken(r.ing) == Taken(s.ing) && FlushHand(r.ing, r.cb) == FlushHand(s.ing, s.cb)
            && LogWeight(r.log, r.eg) < LogWeight(s.log, s.eg) && |EgHand(r.eg)| <= |EgHand(s.eg)|
            && IngressWeight(r.ing) <= IngressWeight(s.ing)
  {
    hide Flatten, InFiles, InChannel;
  }

  lemma DrainStepWeight(s: State, a: DrStep)
    requires Shape(s) && DrEnabled(s, a)
    ensures DrainWeight(DrApply(s, a).drain) < DrainWeight(s.drain)
  {
    match a
    case DrOpen(ok) => if ok {} else {}
    case DrSend =>
    case DrFileDone =>
    case DrAbort =>
    case DrClose =>
  }

  lemma MeasureDrain(s: State, a: DrStep)
    requires Locking(s) && Shape(s) && DrEnabled(s, a)
    ensures DrApply(s, a).received <= |DrApply(s, a).output| && Measure(DrApply(s, a)) < Measure(s)
  {
    DrainStepWeight(s, a);
    hide DrainWeight, Taken, FlushHand, EgHand, LogWeight, IngressWeight, CallbackWeight, InFiles, Flatten;
    match a
    case DrOpen(_) =>
    case DrSend =>
    case DrFileDone =>
    case DrAbort =>
    case DrClose =>
  }

  lemma MeasureReceive(s: State)
    requires Shape(s) && EnvEnabled(s, Receive)
    ensures EnvApply(s, Receive).received <= |EnvApply(s, Receive).output|
    ensures Measure(EnvApply(s, Receive)) < Measure(s)
  {
    hide DrainWeight, Taken, FlushHand, EgHand, LogWeight, IngressWeight, CallbackWeight;
  }

  lemma MeasureStep(s: State, a: Action)
    requires Locking(s) && Shape(s) && Enabled(s, a) && Progressing(a)
    ensures Apply(s, a).received <= |Apply(s, a).output| && Measure(Apply(s, a)) < Measure(s)
  {
    hide EnvEnabled, EnvApply, CbEnabled, InEnabled, EgEnabled, WdEnabled, DrEnabled, Locking, Measure;
    hide CbApply, InApply, EgApply, WdApply, DrApply;
    match a
    case Env(e) => MeasureReceive(s);
    case Cb(c) => MeasureCallback(s, c);
    case In(i) => MeasureIngress(s, i);
    case Eg(e) => MeasureEgress(s, e);
    case Wd(w) => MeasureDrainWal(s, w);
    case Dr(d) => MeasureDrain(s, d);
  }

  /** The actions lead from s to s', all of them progressing. */
  ghost predicate Onward(s: State, actions: seq<Action>, s': State)
    decreases |actions|
  {
    if actions == [] then s' == s
    else
      var n := |actions| - 1;
      Progressing(actions[n]) &&
      exists before :: Onward(s, actions[..n], before) && Enabled(before, actions[n]) && s' == Apply(before, actions[n])
  }

  /** Left to itself and its consumer, the manager stops: it cannot take more than Measure(s) steps. */
  lemma {:induction false} Stops(s: State, actions: seq<Action>, s': State)
    requires Inv(s) && Onward(s, actions, s')
    ensures Inv(s') && Measure(s') + |actions| <= Measure(s)
    ensures s'.recovered == s.recovered && s'.admitted == s.admitted
    decreases |actions|
  {
    if actions == [] {
    } else {
      var n := |actions| - 1;
      var before :| Onward(s, actions[..n], before) && Enabled(before, actions[n]) && s' == Apply(before, actions[n]);
      Stops(s, actions[..n], before);
      hide Inv, Measure, Enabled, Apply, Locking, Shape;
      OneMore(before, actions[n]);
    }
  }

  lemma OneMore(s: State, a: Action)
    requires Inv(s) && Enabled(s, a) && Progressing(a)
    ensures Inv(Apply(s, a)) && Apply(s, a).received <= |Apply(s, a).output|
    ensures Measure(Apply(s, a)) < Measure(s)
    ensures Apply(s, a).recovered == s.recovered && Apply(s, a).admitted == s.admitted
  {
    hide Locking, Shape, Conserved, Wakeful, Moves, PartsOf, Line, Enabled, Apply, Measure;
    InvStep(s, a);
    MeasureStep(s, a);
    assert s.admitted + [] == s.admitted;
  }

  ghost predicate AllOut(s: State) {
    Line(PartsOf(s)) == s.output && s.received == |s.output|
  }

  /** No deadlock, no lost wake-up: while connected and not cancelled, as long as anything admitted has not
      reached the consumer, some goroutine or the consumer has a step to take. */
  lemma NeverStuck(s: State) returns (a: Action)
    requires Inv(s) && s.connected && !s.cancelled && !AllOut(s)
    ensures Enabled(s, a) && Progressing(a)
  {
    var o := Outcome(0, false, false, false, true);
    if s.received < |s.output| {
      return Env(Receive);
    }
    if !s.cb.Quiet? && (s.cb.DiscWants? ==> s.holder.Nobody?) {
      return Cb(match s.cb case DiscWants => CbLock case DiscStores => CbStore case DiscFlushing => CbPop
                case DiscSpilling(_) => CbWrite(o) case DiscLeaving => CbUnlock case _ => CbSignal);
    }
    if InCritical(s.ing) || s.ing.Signalling? || (s.ing.Wants? && s.holder.Nobody?) {
      return In(match s.ing case Wants(_) => InLock case Entered(_) => InLoad case Offering(_) => InPush
                case Flushing(_) => InPop case Spilling(_, _) => InFlushWrite(o) case Direct(_) => InWrite(o)
                case Leaving => InUnlock case _ => InSignal);
    }
    a := EgressCanMove(s);
  }

  lemma AtRest(s: State)
    requires Locking(s) && Shape(s) && Wakeful(s) && s.eg.AwaitData? && !s.dataToken
    requires !InCritical(s.ing) && !s.ing.Signalling? && !CbCritical(s.cb) && !s.ing.Wants?
    ensures Line(PartsOf(s)) == s.output
  {
    assert s.log.segs == [];
    assert PartsOf(s) == Parts(s.output, [], [], [], [], [], [], []);
  }

  /** With connMu free or held by egress, and everyone else at rest, egress or its drain moves until nothing is
      left. */
  lemma EgressCanMove(s: State) returns (a: Action)
    requires Inv(s) && s.connected && !s.cancelled && !AllOut(s) && s.received == |s.output|
    requires s.cb.Quiet? || (s.cb.DiscWants? && !s.holder.Nobody?)
    requires !InCritical(s.ing) && !s.ing.Signalling? && (s.ing.Wants? ==> !s.holder.Nobody?)
    ensures Enabled(s, a) && Progressing(a)
  {
    hide Conserved, Moves;
    match s.eg
    case Top => a := Eg(EgLoad);
    case AwaitConn => a := Eg(EgConnWake);
    case WantsLock => a := Eg(EgLock);
    case Checking => a := Eg(EgCheck);
    case Popping => a := Eg(EgPop);
    case LeavingToDrain => a := Eg(EgUnlock);
    case LeavingWith(_) => a := Eg(EgUnlock);
    case LeavingEmpty => a := Eg(EgUnlock);
    case Emitting(_) => a := Eg(EgEmit);
    case CallingDrain => a := Wd(WdCallDrain);
    case EmittingDrained(_) => a := Wd(WdEmit);
    case Receiving =>
      a := if |s.drain.ch| > 0 then Wd(WdReceive)
           else if s.drain.closed then Wd(WdReturn)
           else if s.drain.cur.None? then Dr(if |s.drain.rest| > 0 then DrOpen(true) else DrClose)
           else Dr(if |s.drain.cur.value| > 0 then DrSend else DrFileDone);
    case AwaitData =>
      if !s.connToken && !s.dataToken {
        AtRest(s);
      }
      a := if s.connToken then Eg(EgConnWake) else Eg(EgDataWake);
    case EgEnded => a := Eg(EgLoad);
  }

  /** Delivery. When the manager, connected and not cancelled, has no step left to take and its consumer none
      either, every point that came in and was not lost has been received, in order; with no losses at all,
      exactly the input has. */
  lemma Delivery(init: State, actions: seq<Action>, s: State)
    requires Run(init, actions, s) && s.connected && !s.cancelled
    requires forall a :: Progressing(a) ==> !Enabled(s, a)
    ensures s.received == |s.output| && Line(PartsOf(s)) == s.output
    ensures |s.output| + Lost(s.tally) == |init.recovered| + |AdmittedBy(actions)|
    ensures Subseq(AllStored(s.output), AllStored(init.recovered + AdmittedBy(actions)))
    ensures Lost(s.tally) == 0 ==> AllStored(s.output) == AllStored(init.recovered + AdmittedBy(actions))
  {
    hide Inv, Enabled, Progressing, PartsOf, Line, Subseq, AllStored;
    EveryRun(init, actions, s);
    if !AllOut(s) {
      var a := NeverStuck(s);
    }
    Order(init, actions, s);
    NoLoss(init, actions, s);
    LineSize(PartsOf(s));
    InvBalance(s);
  }

  lemma InvBalance(s: State)
    requires Inv(s)
    ensures Size(PartsOf(s)) + Lost(s.tally) == |s.recovered| + |s.admitted|
  {
    Balance(s);
  }
}
