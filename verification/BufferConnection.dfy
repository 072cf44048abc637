/** What the connection does to the buffer manager (internal/buffer/buffer.go): silence while it is down, delivery once
    it is up again, and the end when the context is cancelled. */
module BufferConnection {
  import opened Seqs
  import opened Points
  import opened WalSpec
  import opened Pipeline
  import opened BufferModel
  import opened BufferProofs
  import opened BufferTheorems
  import opened BufferLiveness
  import opened BufferRefinement

  // ---- While it is down

  /** Disconnected, and egress between rounds, waiting or ended. */
  ghost predicate Down(s: State) {
    !s.connected && (s.eg.Top? || s.eg.AwaitConn? || s.eg.EgEnded?)
  }

  /** Nothing is put out, and nothing taken from the ring or the log for that. */
  ghost predicate Silent(s: State, now: State) {
    && now.output == s.output
    && now.tally.popped == s.tally.popped && now.tally.walDrained == s.tally.walDrained
  }

  lemma DownStep(s: State, a: Action)
    requires Shape(s) && Down(s) && Enabled(s, a) && a != Env(Reconnect)
    ensures Down(Apply(s, a)) && Silent(s, Apply(s, a))
  {
    hide EnvEnabled, CbEnabled, InEnabled, EgEnabled, WdEnabled, DrEnabled, Shape, Down, Silent;
    hide EnvApply, CbApply, InApply, EgApply, WdApply, DrApply;
    match a
    case Env(e) => DownEnvironment(s, e);
    case Cb(c) => DownCallback(s, c);
    case In(i) => DownIngress(s, i);
    case Eg(e) => DownEgress(s, e);
    case Wd(w) => NoDrainWhileDown(s);
    case Dr(d) => NoDrainWhileDown(s);
  }

  lemma DownEnvironment(s: State, a: EnvStep)
    requires Down(s) && EnvEnabled(s, a) && a != Reconnect
    ensures Down(EnvApply(s, a)) && Silent(s, EnvApply(s, a))
  {
    hide Without;
  }

  lemma DownCallback(s: State, a: CbStep)
    requires Down(s) && CbEnabled(s, a)
    ensures Down(CbApply(s, a)) && Silent(s, CbApply(s, a))
  {
    hide Written, Flatten;
  }

  lemma DownIngress(s: State, a: InStep)
    requires Down(s) && InEnabled(s, a)
    ensures Down(InApply(s, a)) && Silent(s, InApply(s, a))
  {
    hide Written, Flatten;
  }

  lemma DownEgress(s: State, a: EgStep)
    requires Down(s) && EgEnabled(s, a)
    ensures Down(EgApply(s, a)) && Silent(s, EgApply(s, a))
  {
  }

  lemma NoDrainWhileDown(s: State)
    requires Shape(s) && Down(s)
    ensures forall w :: !WdEnabled(s, w)
    ensures forall d :: !DrEnabled(s, d)
  {
    hide Flatten;
  }

  /** From the moment egress is between rounds and the connection down, nothing comes out until it is up again,
      whatever else happens. */
  lemma {:induction false} SilentWhileDown(s: State, actions: seq<Action>, s': State)
    requires Locking(s) && Shape(s) && Down(s) && Solo(s, actions, s')
    requires forall i :: 0 <= i < |actions| ==> actions[i] != Env(Reconnect)
    ensures Down(s') && Silent(s, s')
    decreases |actions|
  {
    if actions != [] {
      hide Enabled, Apply, Locking, Shape, Down;
      DownStep(s, actions[0]);
      ShapeStep(s, actions[0]);
      SilentWhileDown(Apply(s, actions[0]), actions[1..], s');
    }
  }

  /** What the callback last said: up at a reconnect, down when it stores the flag. */
  function LastWord(actions: seq<Action>): bool {
    if actions == [] then true
    else
      var last := actions[|actions| - 1];
      if last == Env(Reconnect) then true else if last == Cb(CbStore) then false else LastWord(actions[..|actions| - 1])
  }

  /** The flag, the context, and the end of ingress. */
  ghost predicate Signalled(s: State, a: Action, now: State) {
    && now.connected == (a == Env(Reconnect) || (a != Cb(CbStore) && s.connected))
    && now.cancelled == (a == Env(Cancel) || s.cancelled)
    && (now.ing.InEnded? ==> s.ing.InEnded? || a == Env(CloseInput) || s.cancelled)
  }

  lemma SignalStep(s: State, a: Action)
    requires Enabled(s, a)
    ensures Signalled(s, a, Apply(s, a))
  {
    hide EnvEnabled, CbEnabled, InEnabled, EgEnabled, WdEnabled, DrEnabled, Signalled;
    hide EnvApply, CbApply, InApply, EgApply, WdApply, DrApply;
    match a
    case Env(e) => SignalEnvironment(s, e);
    case Cb(c) => SignalCallback(s, c);
    case In(i) => SignalIngress(s, i);
    case Eg(e) => SignalEgress(s, e);
    case Wd(w) => SignalDrainWal(s, w);
    case Dr(d) => SignalDrain(s, d);
  }

  lemma SignalEnvironment(s: State, a: EnvStep)
    requires EnvEnabled(s, a)
    ensures Signalled(s, Env(a), EnvApply(s, a))
  {
    hide Without;
  }

  lemma SignalCallback(s: State, a: CbStep)
    requires CbEnabled(s, a)
    ensures Signalled(s, Cb(a), CbApply(s, a))
  {
    hide Written, Counted;
  }

  lemma SignalIngress(s: State, a: InStep)
    requires InEnabled(s, a)
    ensures Signalled(s, In(a), InApply(s, a))
  {
    hide Written, Counted;
  }

  lemma SignalEgress(s: State, a: EgStep)
    requires EgEnabled(s, a)
    ensures Signalled(s, Eg(a), EgApply(s, a))
  {
  }

  lemma SignalDrainWal(s: State, a: WdStep)
    requires WdEnabled(s, a)
    ensures Signalled(s, Wd(a), WdApply(s, a))
  {
    hide InFiles, InChannel;
  }

  lemma SignalDrain(s: State, a: DrStep)
    requires DrEnabled(s, a)
    ensures Signalled(s, Dr(a), DrApply(s, a))
  {
    hide InFiles;
  }

  /** Over every run the flag is what the callback last said, the context is done only when it was cancelled, and
      ingress and egress end only then, or ingress when its input ends. */
  lemma {:induction false} SignalsOfRun(init: State, actions: seq<Action>, s: State)
    requires Run(init, actions, s)
    ensures s.connected == LastWord(actions)
    ensures s.cancelled <==> Env(Cancel) in actions
    ensures s.ing.InEnded? ==> Env(CloseInput) in actions || Env(Cancel) in actions
    ensures s.eg.EgEnded? ==> Env(Cancel) in actions
    decreases |actions|
  {
    hide Inv, Enabled, Apply, Initial;
    EveryRun(init, actions, s);
    EndedIsCancelled(s);
    if actions == [] {
      StartsUnsignalled(s);
    } else {
      var n := |actions| - 1;
      var before :| Run(init, actions[..n], before) && Enabled(before, actions[n]) && s == Apply(before, actions[n]);
      SignalsOfRun(init, actions[..n], before);
      SignalStep(before, actions[n]);
      assert actions == actions[..n] + [actions[n]];
    }
  }

  lemma StartsUnsignalled(s: State)
    requires Initial(s)
    ensures s.connected && !s.cancelled && !s.ing.InEnded?
  {
  }

  lemma EndedIsCancelled(s: State)
    requires Inv(s)
    ensures s.eg.EgEnded? ==> s.cancelled
  {
  }

  // ---- The callback takes effect

  /** Whatever the callback, ingress or egress is in the middle of, and whoever holds the mutex, someone has a step to
      take. */
  lemma SomeoneMoves(s: State) returns (a: Action)
    requires Inv(s) && (!s.cb.Quiet? || s.ing.Wants? || s.ing.Signalling? || s.eg.WantsLock? || !s.holder.Nobody?)
    ensures Enabled(s, a) && Progressing(a)
  {
    hide Conserved, Wakeful, Moves, Shape;
    var o := Outcome(0, false, false, false, true);
    LogIsWellFormed(s);
    if CbCritical(s.cb) || s.cb.ConnSignals? {
      return Cb(match s.cb case DiscStores => CbStore case DiscFlushing => CbPop
                case DiscSpilling(_) => CbWrite(o) case DiscLeaving => CbUnlock case _ => CbSignal);
    }
    if InCritical(s.ing) || s.ing.Signalling? {
      return In(match s.ing case Entered(_) => InLoad case Offering(_) => InPush case Flushing(_) => InPop
                case Spilling(_, _) => InFlushWrite(o) case Direct(_) => InWrite(o) case Leaving => InUnlock
                case _ => InSignal);
    }
    if EgCritical(s.eg) {
      return Eg(match s.eg case Checking => EgCheck case Popping => EgPop case _ => EgUnlock);
    }
    return if s.cb.DiscWants? then Cb(CbLock) else if s.ing.Wants? then In(InLock) else Eg(EgLock);
  }

  /** While the callback is on its way, or has done its work and nothing was said since. */
  ghost predicate GoesDown(s: State) {
    s.cb.DiscWants? || s.cb.DiscStores? || (!s.connected && !s.cb.ConnSignals?)
  }

  ghost predicate ComesUp(s: State) {
    s.connected && (s.cb.ConnSignals? || s.cb.Quiet?)
  }

  /** Cancelled while draining, or ended. */
  ghost predicate LastDrain(s: State) {
    s.cancelled && !s.ing.NotStarted? && (s.eg.Receiving? || s.eg.EmittingDrained? || s.eg.EgEnded?)
  }

  /** What the manager's own steps keep of these, and of the context. */
  ghost predicate Turned(s: State, now: State) {
    && (GoesDown(s) ==> GoesDown(now)) && (ComesUp(s) ==> ComesUp(now)) && (LastDrain(s) ==> LastDrain(now))
    && now.cancelled == s.cancelled
  }

  lemma CallbackTurn(s: State, a: Action)
    requires Enabled(s, a) && Progressing(a)
    ensures Turned(s, Apply(s, a))
  {
    hide EnvEnabled, CbEnabled, InEnabled, EgEnabled, WdEnabled, DrEnabled, Turned;
    hide EnvApply, CbApply, InApply, EgApply, WdApply, DrApply;
    match a
    case Env(e) => TurnReceive(s);
    case Cb(c) => TurnCallback(s, c);
    case In(i) => TurnIngress(s, i);
    case Eg(e) => TurnEgress(s, e);
    case Wd(w) => TurnDrainWal(s, w);
    case Dr(d) => TurnDrain(s, d);
  }

  lemma TurnReceive(s: State)
    requires EnvEnabled(s, Receive)
    ensures Turned(s, EnvApply(s, Receive))
  {
  }


  lemma TurnCallback(s: State, a: CbStep)
    requires CbEnabled(s, a)
    ensures Turned(s, CbApply(s, a))
  {
    hide Written, Counted;
  }

  lemma TurnIngress(s: State, a: InStep)
    requires InEnabled(s, a)
    ensures Turned(s, InApply(s, a))
  {
    hide Written, Counted;
  }

  lemma TurnEgress(s: State, a: EgStep)
    requires EgEnabled(s, a)
    ensures Turned(s, EgApply(s, a))
  {
  }

  lemma TurnDrainWal(s: State, a: WdStep)
    requires WdEnabled(s, a)
    ensures Turned(s, WdApply(s, a))
  {
    hide InFiles, InChannel;
  }

  lemma TurnDrain(s: State, a: DrStep)
    requires DrEnabled(s, a)
    ensures Turned(s, DrApply(s, a))
  {
    hide InFiles;
  }

  lemma {:induction false} TurnOnward(s: State, actions: seq<Action>, s': State)
    requires Onward(s, actions, s')
    ensures Turned(s, s')
    decreases |actions|
  {
    if actions != [] {
      hide Enabled, Apply, GoesDown, ComesUp, LastDrain, Progressing;
      var n := |actions| - 1;
      var before :| Onward(s, actions[..n], before) && Enabled(before, actions[n]) && s' == Apply(before, actions[n]);
      TurnOnward(s, actions[..n], before);
      CallbackTurn(before, actions[n]);
    }
  }

  /** No step is left to the manager or its consumer. */
  ghost predicate AtRestFor(s: State) {
    forall a :: Progressing(a) ==> !Enabled(s, a)
  }

  /** Once the sender has told of a lost connection, and everyone has done what there is to do, the manager is
      disconnected and the ring is in the log. */
  lemma DisconnectTakesEffect(s: State, actions: seq<Action>, s': State)
    requires Inv(s) && Enabled(s, Env(Disconnect)) && Onward(Apply(s, Env(Disconnect)), actions, s') && AtRestFor(s')
    ensures !s'.connected && s'.ring == [] && s'.cb.Quiet?
  {
    var told := Apply(s, Env(Disconnect));
    assert GoesDown(told);
    InvStep(s, Env(Disconnect));
    hide Inv, Enabled, Apply, Measure;
    Stops(told, actions, s');
    TurnOnward(told, actions, s');
    Quieted(s');
    DownIsFlushed(s');
  }

  lemma Quieted(s: State)
    requires Inv(s) && AtRestFor(s)
    ensures s.cb.Quiet?
  {
    hide Inv, Enabled, Progressing;
    if !s.cb.Quiet? {
      var a := SomeoneMoves(s);
    }
  }

  lemma DownIsFlushed(s: State)
    requires Inv(s) && s.cb.Quiet? && !s.connected
    ensures s.ring == []
  {
  }

  lemma OneMoreStep(init: State, actions: seq<Action>, s: State, a: Action)
    requires Run(init, actions, s) && Enabled(s, a)
    ensures Run(init, actions + [a], Apply(s, a))
  {
    hide Enabled, Apply, Initial;
    assert (actions + [a])[..|actions|] == actions;
  }

  lemma {:induction false} RunOnward(init: State, actions: seq<Action>, s: State, more: seq<Action>, s': State)
    requires Run(init, actions, s) && Onward(s, more, s')
    ensures Run(init, actions + more, s')
    decreases |more|
  {
    hide Enabled, Apply, Progressing, Run;
    if more == [] {
      assert actions + more == actions;
    } else {
      var n := |more| - 1;
      var before :| Onward(s, more[..n], before) && Enabled(before, more[n]) && s' == Apply(before, more[n]);
      RunOnward(init, actions, s, more[..n], before);
      OneMoreStep(init, actions + more[..n], before, more[n]);
      assert actions + more[..n] + [more[n]] == actions + more;
    }
  }

  /** A reconnect delivers. Whatever state the manager is in when the sender tells of a connection, once it has done
      what there is to do, everything not lost has been received, in order; with no losses at all, exactly the
      input has. */
  lemma ReconnectDelivers(init: State, actions: seq<Action>, s: State, more: seq<Action>, s': State)
    requires Run(init, actions, s) && !s.cancelled && Enabled(s, Env(Reconnect))
    requires Onward(Apply(s, Env(Reconnect)), more, s') && AtRestFor(s')
    ensures var origin := init.recovered + AdmittedBy(actions);
            && s'.received == |s'.output| && Line(PartsOf(s')) == s'.output
            && |s'.output| + Lost(s'.tally) == |origin|
            && Subseq(AllStored(s'.output), AllStored(origin))
            && (Lost(s'.tally) == 0 ==> AllStored(s'.output) == AllStored(origin))
  {
    var up, all := Apply(s, Env(Reconnect)), actions + [Env(Reconnect)];
    ReconnectIs(s);
    hide Enabled, Apply, Inv, Lost, Line, PartsOf, AllStored, Subseq, ComesUp, GoesDown, LastDrain;
    hide Measure, Run, Onward, Progressing;
    OneMoreStep(init, actions, s, Env(Reconnect));
    TurnOnward(up, more, s');
    RunOnward(init, all, up, more, s');
    EveryRun(init, actions, s);
    EveryRun(init, all, up);
    EveryRun(init, all + more, s');
    Stops(up, more, s');
    UpIsConnected(s');
    Delivery(init, all + more, s');
  }

  lemma ReconnectIs(s: State)
    requires Enabled(s, Env(Reconnect))
    ensures var up := Apply(s, Env(Reconnect));
            ComesUp(up) && up.cancelled == s.cancelled && up.recovered == s.recovered && up.admitted == s.admitted
  {
  }

  lemma UpIsConnected(s: State)
    requires ComesUp(s)
    ensures s.connected
  {
  }

  // ---- The end

  /** Egress or its drain has a step to take, unless egress has ended. */
  lemma EgressGoesOn(s: State) returns (a: Action)
    requires Inv(s) && s.cancelled && s.cb.Quiet? && !s.ing.Wants? && !s.ing.Signalling? && s.holder.Nobody?
    requires !s.eg.EgEnded? && !s.eg.WantsLock?
    ensures Enabled(s, a) && Progressing(a)
  {
    hide Conserved, Moves, Wakeful;
    match s.eg
    case Top => a := Eg(EgLoad);
    case AwaitConn => a := Eg(EgStop);
    case CallingDrain => a := Wd(WdCallDrain);
    case Receiving =>
      a := if |s.drain.ch| > 0 then Wd(WdReceive)
           else if s.drain.closed then Wd(WdReturn)
           else if s.drain.cur.None? then Dr(if |s.drain.rest| > 0 then DrOpen(true) else DrClose)
           else Dr(if |s.drain.cur.value| > 0 then DrSend else DrFileDone);
    case EmittingDrained(_) => a := Wd(WdAbandon);
    case Emitting(_) => a := Eg(EgStop);
    case AwaitData => a := Eg(EgStop);
  }

  /** A cancelled manager comes to an end: when there is nothing left to do, both goroutines have ended, no drain is
      under way, the callback is done, the mutex is free, and the consumer has received all that was put out. */
  lemma ShutsDown(s: State)
    requires Inv(s) && s.cancelled && AtRestFor(s)
    ensures s.ing.InEnded? && s.eg.EgEnded? && s.drain.NoDrain? && s.cb.Quiet? && s.holder.Nobody?
    ensures s.received == |s.output|
  {
    MutexIsFree(s);
    if !s.eg.EgEnded? {
      hide Inv, Enabled, Progressing;
      var a := EgressGoesOn(s);
      assert false;
    } else {
      hide Conserved, Moves;
      assert Progressing(In(InStop)) && Progressing(Env(Receive));
    }
  }

  lemma MutexIsFree(s: State)
    requires Inv(s) && AtRestFor(s)
    ensures s.cb.Quiet? && !s.ing.Wants? && !s.ing.Signalling? && !s.eg.WantsLock? && s.holder.Nobody?
  {
    hide Inv, Enabled, Progressing;
    if !s.cb.Quiet? || s.ing.Wants? || s.ing.Signalling? || s.eg.WantsLock? || !s.holder.Nobody? {
      var a := SomeoneMoves(s);
    }
  }

  /** Once cancelled while it drains, egress ends with the drain and takes nothing more from ring or log, unless it is
      still Start's own drain, before ingress. */
  lemma DrainEndsEgress(s: State, a: Action)
    requires LastDrain(s) && Enabled(s, a)
    ensures LastDrain(Apply(s, a))
  {
    hide EnvEnabled, CbEnabled, InEnabled, EgEnabled, WdEnabled, DrEnabled, GoesDown, ComesUp, LastDrain;
    hide EnvApply, CbApply, InApply, EgApply, WdApply, DrApply;
    match a
    case Env(e) => LastDrainEnvironment(s, e);
    case Cb(c) => TurnCallback(s, c);
    case In(i) => TurnIngress(s, i);
    case Eg(e) => TurnEgress(s, e);
    case Wd(w) => TurnDrainWal(s, w);
    case Dr(d) => TurnDrain(s, d);
  }

  lemma LastDrainEnvironment(s: State, a: EnvStep)
    requires LastDrain(s) && EnvEnabled(s, a)
    ensures LastDrain(EnvApply(s, a))
  {
    hide Without;
  }

  /** Start's own drain, whether it finishes or is cancelled, is followed by both goroutines. */
  lemma StartLaunches(s: State, a: WdStep)
    requires s.ing.NotStarted? && WdEnabled(s, a) && (a.WdReturn? || a.WdAbandon?)
    ensures WdApply(s, a).ing.Idle? && WdApply(s, a).eg.Top? && WdApply(s, a).drain.NoDrain?
  {
    hide InFiles, InChannel;
  }

  // ---- What may happen

  /** The environment is held to nothing: input may come or end exactly when ingress waits for it, the sender may tell
      of the connection whenever its last call has returned, the context may be cancelled and any record still stored
      be damaged at any time. A fault may end a drain at any file, a cancellation only at a point still to be sent;
      and only a cancellation, at one of its selects, ends egress. */
  lemma NothingRuledOut(s: State)
    ensures s.ing.Idle? <==> Enabled(s, Env(CloseInput))
    ensures forall p :: s.ing.Idle? <==> Enabled(s, Env(Admit(p)))
    ensures s.cb.Quiet? <==> Enabled(s, Env(Disconnect))
    ensures s.cb.Quiet? <==> Enabled(s, Env(Reconnect))
    ensures Enabled(s, Env(Cancel)) && (s.received < |s.output| <==> Enabled(s, Env(Receive)))
    ensures forall i: nat, j: nat :: i < |s.log.segs| && j < |s.log.segs[i]| ==> Enabled(s, Env(DamageLog(i, j)))
    ensures s.drain.Draining? ==>
              && (forall i: nat, j: nat :: i < |s.drain.rest| && j < |s.drain.rest[i]| ==>
                    Enabled(s, Env(DamageRest(i, j))))
              && (s.drain.cur.Some? ==>
                    forall j: nat :: j < |s.drain.cur.value| ==> Enabled(s, Env(DamageCurrent(j))))
              && (!s.drain.closed && s.drain.cur.None? && s.drain.rest != [] ==>
                    Enabled(s, Dr(DrOpen(true))) && Enabled(s, Dr(DrOpen(false))))
              && (s.cancelled && s.drain.cur.Some? && s.drain.cur.value != [] <==> Enabled(s, Dr(DrAbort)))
    ensures s.cancelled && (s.eg.AwaitConn? || s.eg.AwaitData? || s.eg.Emitting?) <==> Enabled(s, Eg(EgStop))
    ensures s.cancelled && s.ing.Idle? <==> Enabled(s, In(InStop))
    ensures s.cancelled && s.drain.Draining? && s.eg.EmittingDrained? <==> Enabled(s, Wd(WdAbandon))
  {
  }
}
