/** The buffer manager (internal/buffer/buffer.go) as concurrent goroutines: ingress, egress, the drain
    goroutine of the log, and the connection callback. One action is one atomic step: a lock or unlock of
    connMu, a load or store of the connected flag, one ring, log or channel operation. */
module BufferModel {
  import opened Seqs
  import opened Points
  import opened WalSpec
  import opened Pipeline

  /** Capacity of the output channel and of the channel Drain returns. */
  const CHANNEL := 256

  /** Who holds connMu. */
  datatype Holder = Nobody | IngressHolds | EgressHolds | CallbackHolds

  /** Where runIngress is. p is the point taken from the input, q one popped from the ring during a flush. */
  datatype Ingress =
    | NotStarted
    | Idle
    | Wants(p: Point)
    | Entered(p: Point)
    | Offering(p: Point)
    | Flushing(p: Point)
    | Spilling(p: Point, q: Point)
    | Direct(p: Point)
    | Leaving
    | Signalling
    | InEnded

  /** Where runEgress is, including the drain that Start runs before the goroutines exist. */
  datatype Egress =
    | Top
    | AwaitConn
    | WantsLock
    | Checking
    | Popping
    | LeavingToDrain
    | LeavingWith(p: Point)
    | LeavingEmpty
    | Emitting(p: Point)
    | CallingDrain
    | Receiving
    | EmittingDrained(p: Point)
    | AwaitData
    | EgEnded

  /** Where OnConnChange is; the sender calls it from one goroutine. */
  datatype Callback =
    | Quiet
    | DiscWants
    | DiscStores
    | DiscFlushing
    | DiscSpilling(q: Point)
    | DiscLeaving
    | ConnSignals

  /** A drain under way: what is left of the file being read, the files after it, and the channel. */
  datatype Drain =
    | NoDrain
    | Draining(cur: Option<seq<Point>>, rest: seq<seq<Point>>, ch: seq<Point>, closed: bool)

  /** The source's counters, and below them what became of the points it does not count. */
  datatype Tally = Tally(
    ringPushes: nat,
    walSpills: nat,
    walDrained: nat,
    dropped: nat,
    popped: nat,          // taken off the ring by egress
    flushed: nat,         // taken off the ring by a flush
    unsynced: nat,        // counted as dropped, yet in the log: appended, then the sync failed
    unreadable: nat,      // counted as spilled, yet out of the reader's reach
    pruned: nat,          // lost with a segment dropped for size
    damaged: nat,         // lost to corruption on disk
    orphaned: nat,        // left in files a failed or cancelled drain did not finish
    abandonedFiles: nat,  // left in a drain nobody listens to after a cancellation
    abandonedHand: nat)   // in egress's hand at a cancellation

  datatype State = State(
    cap: nat,
    connected: bool,
    holder: Holder,
    ring: seq<Point>,
    log: Log,
    connToken: bool,
    dataToken: bool,
    cancelled: bool,
    ing: Ingress,
    eg: Egress,
    cb: Callback,
    drain: Drain,
    recovered: seq<Point>,
    admitted: seq<Point>,
    output: seq<Point>,
    received: nat,
    tally: Tally)

  /** The environment: input, the sender, cancellation, and damage to stored records, which is corruption or, in a
      file being read, a fault of the reader that costs the record. */
  datatype EnvStep =
    | Admit(p: Point) | CloseInput | Disconnect | Reconnect | Receive | Cancel
    | DamageLog(i: nat, j: nat) | DamageRest(i: nat, j: nat) | DamageCurrent(j: nat)

  /** OnConnChange. */
  datatype CbStep = CbLock | CbStore | CbPop | CbWrite(o: Outcome) | CbUnlock | CbSignal

  /** runIngress. */
  datatype InStep =
    | InStop | InLock | InLoad | InPush | InPop | InFlushWrite(o: Outcome) | InWrite(o: Outcome) | InUnlock | InSignal

  /** runEgress. */
  datatype EgStep = EgLoad | EgConnWake | EgDataWake | EgLock | EgCheck | EgPop | EgUnlock | EgEmit | EgStop

  /** drainWAL, called by Start and by runEgress. */
  datatype WdStep = WdCallDrain | WdReceive | WdEmit | WdReturn | WdAbandon

  /** The goroutine of WAL.Drain. */
  datatype DrStep = DrOpen(ok: bool) | DrSend | DrFileDone | DrAbort | DrClose

  datatype Action =
    | Env(env: EnvStep)
    | Cb(callback: CbStep)
    | In(ingress: InStep)
    | Eg(egress: EgStep)
    | Wd(drainWal: WdStep)
    | Dr(drain: DrStep)

  /** Start looks for records of an earlier run, and if there are any drains them before it launches the
      goroutines. */
  ghost predicate Initial(s: State) {
    && s.cap > 0 && s.connected && s.holder.Nobody? && s.ring == [] && !s.log.active && s.log.clear
    && !s.connToken && !s.dataToken && !s.cancelled
    && (if s.log.segs != [] then s.ing.NotStarted? && s.eg.CallingDrain? else s.ing.Idle? && s.eg.Top?)
    && s.cb.Quiet? && s.drain.NoDrain?
    && s.recovered == Flatten(s.log.segs) && s.admitted == [] && s.output == [] && s.received == 0
    && s.tally == Tally(0, 0, 0, 0, 0, 0, 0, 0, 0, 0, 0, 0, 0)
  }

  predicate EnvEnabled(s: State, a: EnvStep) {
    match a
    case Admit(_) => s.ing.Idle?
    case CloseInput => s.ing.Idle?
    case Disconnect => s.cb.Quiet?
    case Reconnect => s.cb.Quiet?
    case Receive => s.received < |s.output|
    case Cancel => true
    case DamageLog(i, j) => i < |s.log.segs| && j < |s.log.segs[i]|
    case DamageRest(i, j) => s.drain.Draining? && i < |s.drain.rest| && j < |s.drain.rest[i]|
    case DamageCurrent(j) => s.drain.Draining? && s.drain.cur.Some? && j < |s.drain.cur.value|
  }

  ghost predicate CbEnabled(s: State, a: CbStep) {
    match a
    case CbLock => s.cb.DiscWants? && s.holder.Nobody?
    case CbStore => s.cb.DiscStores?
    case CbPop => s.cb.DiscFlushing?
    case CbWrite(o) => s.cb.DiscSpilling? && Possible(s.log, o)
    case CbUnlock => s.cb.DiscLeaving?
    case CbSignal => s.cb.ConnSignals?
  }

  ghost predicate InEnabled(s: State, a: InStep) {
    match a
    case InStop => s.ing.Idle? && s.cancelled
    case InLock => s.ing.Wants? && s.holder.Nobody?
    case InLoad => s.ing.Entered?
    case InPush => s.ing.Offering?
    case InPop => s.ing.Flushing?
    case InFlushWrite(o) => s.ing.Spilling? && Possible(s.log, o)
    case InWrite(o) => s.ing.Direct? && Possible(s.log, o)
    case InUnlock => s.ing.Leaving?
    case InSignal => s.ing.Signalling?
  }

  predicate EgEnabled(s: State, a: EgStep) {
    match a
    case EgLoad => s.eg.Top?
    case EgConnWake => (s.eg.AwaitConn? || s.eg.AwaitData?) && s.connToken
    case EgDataWake => s.eg.AwaitData? && s.dataToken
    case EgLock => s.eg.WantsLock? && s.holder.Nobody?
    case EgCheck => s.eg.Checking?
    case EgPop => s.eg.Popping?
    case EgUnlock => s.eg.LeavingToDrain? || s.eg.LeavingWith? || s.eg.LeavingEmpty?
    case EgEmit => s.eg.Emitting? && |s.output| - s.received < CHANNEL
    case EgStop => s.cancelled && (s.eg.AwaitConn? || s.eg.AwaitData? || s.eg.Emitting?)
  }

  predicate WdEnabled(s: State, a: WdStep) {
    match a
    case WdCallDrain => s.eg.CallingDrain?
    case WdEmit => s.eg.EmittingDrained? && |s.output| - s.received < CHANNEL
    case WdReceive => s.eg.Receiving? && s.drain.Draining? && |s.drain.ch| > 0
    case WdReturn => s.eg.Receiving? && s.drain.Draining? && |s.drain.ch| == 0 && s.drain.closed
    case WdAbandon => s.eg.EmittingDrained? && s.drain.Draining? && s.cancelled
  }

  predicate DrEnabled(s: State, a: DrStep) {
    match a
    case DrOpen(_) => s.drain.Draining? && !s.drain.closed && s.drain.cur.None? && s.drain.rest != []
    case DrSend => s.drain.Draining? && s.drain.cur.Some? && s.drain.cur.value != [] && |s.drain.ch| < CHANNEL
    case DrFileDone => s.drain.Draining? && s.drain.cur.Some? && s.drain.cur.value == []
    case DrAbort => s.drain.Draining? && s.drain.cur.Some? && s.drain.cur.value != [] && s.cancelled
    case DrClose => s.drain.Draining? && !s.drain.closed && s.drain.cur.None? && s.drain.rest == []
  }

  ghost predicate Enabled(s: State, a: Action) {
    match a
    case Env(e) => EnvEnabled(s, e)
    case Cb(c) => CbEnabled(s, c)
    case In(i) => InEnabled(s, i)
    case Eg(e) => EgEnabled(s, e)
    case Wd(w) => WdEnabled(s, w)
    case Dr(d) => DrEnabled(s, d)
  }

  function Tail<T>(xs: seq<T>): seq<T> {
    if |xs| == 0 then xs else xs[1..]
  }

  /** The counters after a log write. */
  ghost function Counted(t: Tally, l: Log, o: Outcome): Tally
    requires o.pruned <= |l.segs|
  {
    var t' := t.(pruned := t.pruned + |Flatten(l.segs[..o.pruned])|);
    if o.failed then t'.(dropped := t.dropped + 1, unsynced := t.unsynced + if Kept(l, o) then 1 else 0)
    else t'.(walSpills := t.walSpills + 1, unreadable := t.unreadable + if Kept(l, o) then 0 else 1)
  }

  /** The points a running drain still has in its files. */
  function InFiles(d: Drain): seq<Point> {
    if d.NoDrain? then [] else (if d.cur.Some? then d.cur.value else []) + Flatten(d.rest)
  }

  function InChannel(d: Drain): seq<Point> {
    if d.NoDrain? then [] else d.ch
  }

  function EnvApply(s: State, a: EnvStep): (r: State)
    requires EnvEnabled(s, a)
    ensures r.recovered == s.recovered && r.admitted == s.admitted + if a.Admit? then [a.p] else []
  {
    match a
    case Admit(p) => s.(ing := Wants(p), admitted := s.admitted + [p])
    case CloseInput => s.(ing := InEnded)
    case Disconnect => s.(cb := DiscWants)
    case Reconnect => s.(connected := true, cb := ConnSignals)
    case Receive => s.(received := s.received + 1)
    case Cancel => s.(cancelled := true)
    case DamageLog(i, j) =>
      s.(log := s.log.(segs := s.log.segs[i := Without(s.log.segs[i], j)]),
         tally := s.tally.(damaged := s.tally.damaged + 1))
    case DamageRest(i, j) =>
      s.(drain := s.drain.(rest := s.drain.rest[i := Without(s.drain.rest[i], j)]),
         tally := s.tally.(damaged := s.tally.damaged + 1))
    case DamageCurrent(j) =>
      s.(drain := s.drain.(cur := Some(Without(s.drain.cur.value, j))),
         tally := s.tally.(damaged := s.tally.damaged + 1))
  }

  ghost function CbApply(s: State, a: CbStep): (r: State)
    requires CbEnabled(s, a)
    ensures r.recovered == s.recovered && r.admitted == s.admitted
  {
    match a
    case CbLock => s.(holder := CallbackHolds, cb := DiscStores)
    case CbStore => s.(connected := false, cb := DiscFlushing)
    case CbPop =>
      s.(ring := Tail(s.ring), cb := if s.ring == [] then DiscLeaving else DiscSpilling(s.ring[0]),
         tally := s.tally.(flushed := s.tally.flushed + if s.ring == [] then 0 else 1))
    case CbWrite(o) =>
      s.(log := Written(s.log, s.cb.q, o), tally := Counted(s.tally, s.log, o), cb := DiscFlushing)
    case CbUnlock => s.(holder := Nobody, cb := Quiet)
    case CbSignal => s.(connToken := true, cb := Quiet)
  }

  ghost function InApply(s: State, a: InStep): (r: State)
    requires InEnabled(s, a)
    ensures r.recovered == s.recovered && r.admitted == s.admitted
  {
    match a
    case InStop => s.(ing := InEnded)
    case InLock => s.(holder := IngressHolds, ing := Entered(s.ing.p))
    case InLoad => s.(ing := if s.connected then Offering(s.ing.p) else Direct(s.ing.p))
    case InPush =>
      var room := |s.ring| < s.cap;
      s.(ring := if room then s.ring + [s.ing.p] else s.ring,
         ing := if room then Leaving else Flushing(s.ing.p),
         tally := s.tally.(ringPushes := s.tally.ringPushes + if room then 1 else 0))
    case InPop =>
      s.(ring := Tail(s.ring), ing := if s.ring == [] then Direct(s.ing.p) else Spilling(s.ing.p, s.ring[0]),
         tally := s.tally.(flushed := s.tally.flushed + if s.ring == [] then 0 else 1))
    case InFlushWrite(o) =>
      s.(log := Written(s.log, s.ing.q, o), tally := Counted(s.tally, s.log, o), ing := Flushing(s.ing.p))
    case InWrite(o) =>
      s.(log := Written(s.log, s.ing.p, o), tally := Counted(s.tally, s.log, o), ing := Leaving)
    case InUnlock => s.(holder := Nobody, ing := Signalling)
    case InSignal => s.(dataToken := true, ing := Idle)
  }

  function EgApply(s: State, a: EgStep): (r: State)
    requires EgEnabled(s, a)
    ensures r.recovered == s.recovered && r.admitted == s.admitted
  {
    match a
    case EgLoad => s.(eg := if s.connected then WantsLock else AwaitConn)
    case EgConnWake => s.(connToken := false, eg := Top)
    case EgDataWake => s.(dataToken := false, eg := Top)
    case EgLock => s.(holder := EgressHolds, eg := Checking)
    case EgCheck => s.(eg := if s.log.segs != [] then LeavingToDrain else Popping)
    case EgPop =>
      s.(ring := Tail(s.ring),
         eg := if s.ring == [] then LeavingEmpty else LeavingWith(s.ring[0]),
         tally := s.tally.(popped := s.tally.popped + if s.ring == [] then 0 else 1))
    case EgUnlock =>
      s.(holder := Nobody,
         eg := match s.eg case LeavingToDrain => CallingDrain case LeavingWith(p) => Emitting(p) case _ => AwaitData)
    case EgEmit => s.(output := s.output + [s.eg.p], eg := Top)
    case EgStop =>
      s.(eg := EgEnded,
         tally := s.tally.(abandonedHand := s.tally.abandonedHand + if s.eg.Emitting? then 1 else 0))
  }

  function WdApply(s: State, a: WdStep): (r: State)
    requires WdEnabled(s, a)
    ensures r.recovered == s.recovered && r.admitted == s.admitted
  {
    match a
    case WdCallDrain => s.(drain := Draining(None, s.log.segs, [], false), log := Log([], false, true), eg := Receiving)
    case WdEmit => s.(output := s.output + [s.eg.p], eg := Receiving)
    case WdReceive =>
      s.(drain := s.drain.(ch := s.drain.ch[1..]), eg := EmittingDrained(s.drain.ch[0]),
         tally := s.tally.(walDrained := s.tally.walDrained + 1))
    // Start goes on to launch the goroutines, the egress loop to its next round unless the context is done
    case WdReturn =>
      s.(drain := NoDrain,
         ing := if s.ing.NotStarted? then Idle else s.ing,
         eg := if s.cancelled && !s.ing.NotStarted? then EgEnded else Top)
    case WdAbandon =>
      s.(drain := NoDrain,
         ing := if s.ing.NotStarted? then Idle else s.ing,
         eg := if s.ing.NotStarted? then Top else EgEnded,
         tally := s.tally.(
           abandonedHand := s.tally.abandonedHand + 1,
           abandonedFiles := s.tally.abandonedFiles + |InChannel(s.drain)| + |InFiles(s.drain)|))
  }

  function DrApply(s: State, a: DrStep): (r: State)
    requires DrEnabled(s, a)
    ensures r.recovered == s.recovered && r.admitted == s.admitted
  {
    match a
    // a file that cannot be opened ends the drain: it and the files after it stay on disk, out of the log's list
    case DrOpen(ok) =>
      s.(drain := s.drain.(
           cur := if ok then Some(s.drain.rest[0]) else None,
           rest := if ok then s.drain.rest[1..] else [],
           closed := !ok),
         tally := s.tally.(orphaned := s.tally.orphaned + if ok then 0 else |InFiles(s.drain)|))
    case DrSend =>
      s.(drain := s.drain.(cur := Some(s.drain.cur.value[1..]), ch := s.drain.ch + [s.drain.cur.value[0]]))
    case DrFileDone => s.(drain := s.drain.(cur := None))
    case DrAbort =>
      s.(drain := s.drain.(cur := None, rest := [], closed := true),
         tally := s.tally.(orphaned := s.tally.orphaned + |InFiles(s.drain)|))
    case DrClose => s.(drain := s.drain.(closed := true))
  }

  ghost function Apply(s: State, a: Action): (r: State)
    requires Enabled(s, a)
    ensures r.recovered == s.recovered
    ensures r.admitted == s.admitted + if a.Env? && a.env.Admit? then [a.env.p] else []
  {
    match a
    case Env(e) => EnvApply(s, e)
    case Cb(c) => CbApply(s, c)
    case In(i) => InApply(s, i)
    case Eg(e) => EgApply(s, e)
    case Wd(w) => WdApply(s, w)
    case Dr(d) => DrApply(s, d)
  }

  /** s is where the actions lead from an initial state: one interleaving of all the goroutines. */
  ghost predicate Run(init: State, actions: seq<Action>, s: State)
    decreases |actions|
  {
    if actions == [] then s == init && Initial(init)
    else
      var n := |actions| - 1;
      exists before :: Run(init, actions[..n], before) && Enabled(before, actions[n]) && s == Apply(before, actions[n])
  }
}
