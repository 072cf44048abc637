/** One run of the buffer manager after another on the same directory: what the first leaves behind, and what the two
    put out between them (internal/buffer). */
module NextRun {
  import opened Seqs
  import opened Points
  import opened WalSpec
  import opened Pipeline
  import opened BufferModel
  import opened BufferProofs
  import opened BufferTheorems

  /** What a run does to the files outside the log's list: what has been read of the file being drained; the files
      left by drains that ended early, and the points that had been read out of them; and how many points went with
      the channel of a drain nobody listened to any more. */
  datatype Aside = Aside(read: seq<Point>, left: seq<seq<Point>>, again: seq<Point>, swallowed: nat)

  /** What is still to be read of each file of a drain. */
  function Unread(d: Drain): seq<seq<Point>>
    requires d.Draining?
  {
    (if d.cur.Some? then [d.cur.value] else []) + d.rest
  }

  /** The files of a drain but the first gone of them; the first may have been read in part. */
  function StillThere(d: Drain, read: seq<Point>, gone: nat): seq<seq<Point>>
    requires d.Draining? && gone <= |Unread(d)|
  {
    if gone == 0 && d.cur.Some? then [read + d.cur.value] + d.rest else Unread(d)[gone..]
  }

  function Partly(d: Drain, read: seq<Point>, gone: nat): seq<Point> {
    if d.Draining? && d.cur.Some? && gone == 0 then read else []
  }

  function Leave(x: Aside, d: Drain, gone: nat): Aside
    requires d.Draining? && gone <= |Unread(d)|
  {
    x.(read := [], left := x.left + StillThere(d, x.read, gone), again := x.again + Partly(d, x.read, gone))
  }

  /** When egress walks away from a drain, the goroutine may go on to read and remove files until the channel is
      full or it notices the cancellation. */
  predicate CanGo(s: State, a: Action, gone: nat) {
    a == Wd(WdAbandon) && s.drain.Draining? ==>
      gone <= |Unread(s.drain)| && |s.drain.ch| + |Flatten(Unread(s.drain)[..gone])| <= CHANNEL
  }

  function FollowDrainWal(x: Aside, s: State, a: WdStep, gone: nat): Aside
    requires WdEnabled(s, a) && CanGo(s, Wd(a), gone)
  {
    if !a.WdAbandon? then x
    else
      Leave(x, s.drain, gone)
      .(swallowed := x.swallowed + |s.drain.ch| + |Flatten(Unread(s.drain)[..gone])|)
  }

  function FollowDrain(x: Aside, s: State, a: DrStep): Aside
    requires DrEnabled(s, a)
  {
    match a
    case DrOpen(ok) => if ok then x else Leave(x, s.drain, 0)
    case DrSend => x.(read := x.read + [s.drain.cur.value[0]])
    case DrFileDone => x.(read := [])
    case DrAbort => Leave(x, s.drain, 0)
    case DrClose => x
  }

  ghost function Follow(x: Aside, s: State, a: Action, gone: nat): Aside
    requires Enabled(s, a) && CanGo(s, a, gone)
  {
    match a
    case Wd(w) => FollowDrainWal(x, s, w, gone)
    case Dr(d) => FollowDrain(x, s, d)
    case _ => x
  }

  /** A run, with an account of the files it leaves aside. */
  ghost predicate Traced(init: State, actions: seq<Action>, gone: seq<nat>, s: State, x: Aside)
    decreases |actions|
  {
    |gone| == |actions| &&
    if actions == [] then s == init && Initial(init) && x == Aside([], [], [], 0)
    else
      var n := |actions| - 1;
      exists before, y ::
        && Traced(init, actions[..n], gone[..n], before, y)
        && Enabled(before, actions[n]) && CanGo(before, actions[n], gone[n])
        && s == Apply(before, actions[n]) && x == Follow(y, before, actions[n], gone[n])
  }

  /** What the next run finds on disk, in order of creation. */
  function OnDisk(s: State, x: Aside): seq<seq<Point>> {
    x.left + (if s.drain.Draining? then StillThere(s.drain, x.read, 0) else []) + s.log.segs
  }

  /** What has been read out of the files found. */
  function Repeats(s: State, x: Aside): seq<Point> {
    x.again + Partly(s.drain, x.read, 0)
  }

  /** Put out, in egress's hand or in the channel. */
  function Ahead(p: Parts): seq<Point> {
    p.out + p.hand + p.ch
  }

  /** In memory, and gone with the process. */
  function InMemory(p: Parts): seq<Point> {
    p.hand + p.ch + p.flush + p.ring + p.taken
  }

  // ---- Points counted without regard to their order

  function Bag(xs: seq<Point>): multiset<Point> {
    multiset(AllStored(xs))
  }

  lemma BagConcat(a: seq<Point>, b: seq<Point>)
    ensures Bag(a + b) == Bag(a) + Bag(b)
  {
    AllStoredConcat(a, b);
  }

  lemma {:induction false} SubseqBag<T>(a: seq<T>, b: seq<T>)
    requires Subseq(a, b)
    ensures multiset(a) <= multiset(b)
  {
    if a != [] {
      assert b == [b[0]] + b[1..];
      if a[0] == b[0] && Subseq(a[1..], b[1..]) {
        SubseqBag(a[1..], b[1..]);
        assert a == [a[0]] + a[1..];
      } else {
        SubseqBag(a, b[1..]);
      }
    }
  }

  lemma BagOfMoves(was: seq<Point>, added: seq<Point>, now: seq<Point>)
    requires Moves(was, added, now)
    ensures Bag(now) <= Bag(was) + Bag(added)
  {
    SubseqBag(AllStored(now), AllStored(was + added));
    BagConcat(was, added);
  }

  lemma BagSize(xs: seq<Point>)
    ensures |Bag(xs)| == |xs|
  {
  }

  lemma BagThree(a: seq<Point>, b: seq<Point>, c: seq<Point>)
    ensures Bag(a + b + c) == Bag(a) + Bag(b) + Bag(c)
  {
    BagConcat(a + b, c);
    BagConcat(a, b);
  }

  lemma LineIs(p: Parts)
    ensures Line(p) == (p.out + (p.hand + p.ch) + p.files) + p.log + (p.flush + p.ring + p.taken)
    ensures InMemory(p) == (p.hand + p.ch) + (p.flush + p.ring + p.taken)
    ensures |Line(p)| == |p.out| + |InMemory(p)| + |p.files| + |p.log|
  {
  }

  /** Everything is put out, in memory, in the files of the drain or in the log. */
  lemma LineBag(p: Parts)
    ensures Bag(Line(p)) == Bag(p.out) + Bag(InMemory(p)) + Bag(p.files) + Bag(p.log)
    ensures |Line(p)| == |p.out| + |InMemory(p)| + |p.files| + |p.log|
  {
    LineIs(p);
    hide Bag, Line, InMemory;
    var near, far := p.hand + p.ch, p.flush + p.ring + p.taken;
    BagThree(p.out + near + p.files, p.log, far);
    BagThree(p.out, near, p.files);
    BagConcat(near, far);
  }

  lemma TakeOutFiles(a: Parts, b: Parts)
    requires b == a.(files := [])
    ensures Bag(Line(b)) + Bag(a.files) == Bag(Line(a))
  {
    LineBag(a);
    LineBag(b);
  }

  // ---- What every run keeps

  /** What has been read of the file being drained is the last of what has been put out or is about to be. */
  ghost predicate ReadLast(s: State, x: Aside) {
    && (!(s.drain.Draining? && s.drain.cur.Some?) ==> x.read == [])
    && var ahead := Ahead(PartsOf(s));
       |x.read| <= |ahead| && ahead[|ahead| - |x.read|..] == x.read
  }

  /** The files left hold what was not read of them, as counted, and what was. */
  ghost predicate LeftAccounted(s: State, x: Aside) {
    |Flatten(x.left)| + x.swallowed == s.tally.orphaned + s.tally.abandonedFiles + |x.again|
  }

  /** Nothing is in two places but what was read out of files left. */
  ghost predicate NothingInvented(s: State, x: Aside) {
    Bag(Line(PartsOf(s))) + Bag(Flatten(x.left)) <= Bag(s.recovered + s.admitted) + Bag(x.again)
  }

  ghost predicate Known(s: State, x: Aside) {
    Inv(s) && ReadLast(s, x) && LeftAccounted(s, x) && NothingInvented(s, x)
  }

  /** Steps other than those of the drain and of egress's side of it. */
  ghost predicate DrainStays(s: State, now: State) {
    && now.tally.orphaned == s.tally.orphaned && now.tally.abandonedFiles == s.tally.abandonedFiles
    && (s.drain.Draining? <==> now.drain.Draining?)
    && (s.drain.Draining? ==> (s.drain.cur.Some? <==> now.drain.cur.Some?) && Ahead(PartsOf(now)) == Ahead(PartsOf(s)))
  }

  lemma OthersStay(s: State, a: Action)
    requires Shape(s) && Enabled(s, a) && !a.Wd? && !a.Dr?
    ensures DrainStays(s, Apply(s, a))
  {
    hide EnvEnabled, CbEnabled, InEnabled, EgEnabled, EnvApply, CbApply, InApply, EgApply, Shape, DrainStays;
    match a
    case Env(e) => EnvironmentStays(s, e);
    case Cb(c) => CallbackStays(s, c);
    case In(i) => IngressStays(s, i);
    case Eg(e) => EgressStays(s, e);
  }

  lemma EnvironmentStays(s: State, a: EnvStep)
    requires EnvEnabled(s, a)
    ensures DrainStays(s, EnvApply(s, a))
  {
    hide Without, Flatten, InFiles;
  }

  lemma CallbackStays(s: State, a: CbStep)
    requires CbEnabled(s, a)
    ensures DrainStays(s, CbApply(s, a))
  {
    hide Written, Flatten, InFiles;
  }

  lemma IngressStays(s: State, a: InStep)
    requires InEnabled(s, a)
    ensures DrainStays(s, InApply(s, a))
  {
    hide Written, Flatten, InFiles;
  }

  lemma EgressStays(s: State, a: EgStep)
    requires Shape(s) && EgEnabled(s, a)
    ensures DrainStays(s, EgApply(s, a))
  {
    hide Flatten, InFiles;
  }

  lemma FilesAre(d: Drain)
    requires d.Draining?
    ensures InFiles(d) == Flatten(Unread(d))
  {
    if d.cur.Some? {
      assert Unread(d)[1..] == d.rest;
    } else {
      assert Unread(d) == d.rest;
    }
  }

  /** The files still there hold what was read of the first, and what is unread. */
  lemma StillThereIs(d: Drain, read: seq<Point>, gone: nat)
    requires d.Draining? && gone <= |Unread(d)|
    ensures Flatten(StillThere(d, read, gone)) == Partly(d, read, gone) + Flatten(Unread(d)[gone..])
  {
    if gone == 0 && d.cur.Some? {
      FilesAre(d);
      FlattenConcat([read + d.cur.value], d.rest);
      FlattenOne(read + d.cur.value);
      hide Flatten;
      assert Unread(d)[0..] == Unread(d);
    } else {
      assert [] + Flatten(Unread(d)[gone..]) == Flatten(Unread(d)[gone..]);
    }
  }

  lemma StillThereHolds(d: Drain, read: seq<Point>, gone: nat)
    requires d.Draining? && gone <= |Unread(d)|
    ensures |Flatten(StillThere(d, read, gone))| + |Flatten(Unread(d)[..gone])|
            == |InFiles(d)| + |Partly(d, read, gone)|
    ensures Bag(Flatten(StillThere(d, read, gone))) <= Bag(InFiles(d)) + Bag(Partly(d, read, gone))
    ensures gone == 0 ==> Bag(Flatten(StillThere(d, read, gone))) == Bag(InFiles(d)) + Bag(Partly(d, read, gone))
  {
    StillThereIs(d, read, gone);
    FilesAre(d);
    var fs := Unread(d);
    FlattenSplit(fs, gone);
    assert gone == 0 ==> fs[..gone] == [] && fs[gone..] == fs;
    hide StillThere, Unread, Partly, InFiles, Bag;
    BagConcat(Flatten(fs[..gone]), Flatten(fs[gone..]));
    BagConcat(Partly(d, read, gone), Flatten(fs[gone..]));
  }

  // ---- The steps

  /** Files put aside: what is left grows by what was unread, and by what was read of the first. */
  lemma LeaveHolds(x: Aside, d: Drain, gone: nat)
    requires d.Draining? && gone <= |Unread(d)|
    ensures var y := Leave(x, d, gone);
            && |Flatten(y.left)| + |Flatten(Unread(d)[..gone])| + |x.again|
               == |Flatten(x.left)| + |InFiles(d)| + |y.again|
            && Bag(Flatten(y.left)) + Bag(x.again) <= Bag(Flatten(x.left)) + Bag(InFiles(d)) + Bag(y.again)
  {
    StillThereHolds(d, x.read, gone);
    FlattenConcat(x.left, StillThere(d, x.read, gone));
    BagConcat(Flatten(x.left), Flatten(StillThere(d, x.read, gone)));
    BagConcat(x.again, Partly(d, x.read, gone));
    hide StillThere, Unread, Partly, InFiles, Bag, Flatten;
  }

  lemma ReadLastDrainWal(s: State, a: WdStep, x: Aside, gone: nat)
    requires Shape(s) && WdEnabled(s, a) && CanGo(s, Wd(a), gone) && ReadLast(s, x)
    ensures ReadLast(WdApply(s, a), FollowDrainWal(x, s, a, gone))
  {
    hide Flatten, InFiles, Unread, StillThere, Partly, Taken, FlushHand;
    match a
    case WdCallDrain =>
    case WdReceive => assert Ahead(PartsOf(WdApply(s, a))) == Ahead(PartsOf(s));
    case WdEmit => assert Ahead(PartsOf(WdApply(s, a))) == Ahead(PartsOf(s));
    case WdReturn =>
    case WdAbandon =>
  }

  lemma ReadLastDrain(s: State, a: DrStep, x: Aside)
    requires Shape(s) && DrEnabled(s, a) && ReadLast(s, x)
    ensures ReadLast(DrApply(s, a), FollowDrain(x, s, a))
  {
    hide Flatten, InFiles, Unread, StillThere, Partly, Taken, FlushHand, EgHand;
    match a
    case DrOpen(_) =>
    case DrSend =>
      assert Ahead(PartsOf(DrApply(s, a))) == Ahead(PartsOf(s)) + [s.drain.cur.value[0]];
    case DrFileDone =>
    case DrAbort =>
    case DrClose =>
  }

  lemma ReadLastStep(s: State, a: Action, x: Aside, gone: nat)
    requires Shape(s) && Enabled(s, a) && CanGo(s, a, gone) && ReadLast(s, x)
    ensures ReadLast(Apply(s, a), Follow(x, s, a, gone))
  {
    hide EnvEnabled, CbEnabled, InEnabled, EgEnabled, WdEnabled, DrEnabled, Shape, PartsOf, CanGo;
    hide EnvApply, CbApply, InApply, EgApply, WdApply, DrApply, FollowDrainWal, FollowDrain;
    if a.Wd? {
      hide ReadLast;
      ReadLastDrainWal(s, a.drainWal, x, gone);
    } else if a.Dr? {
      hide ReadLast;
      ReadLastDrain(s, a.drain, x);
    } else {
      OthersStay(s, a);
    }
  }

  lemma LeftDrainWal(s: State, a: WdStep, x: Aside, gone: nat)
    requires Shape(s) && WdEnabled(s, a) && CanGo(s, Wd(a), gone) && LeftAccounted(s, x)
    ensures LeftAccounted(WdApply(s, a), FollowDrainWal(x, s, a, gone))
  {
    hide Flatten, InFiles, Unread, Leave;
    match a
    case WdCallDrain =>
    case WdReceive =>
    case WdEmit =>
    case WdReturn =>
    case WdAbandon => LeaveHolds(x, s.drain, gone);
  }

  lemma LeftDrain(s: State, a: DrStep, x: Aside)
    requires Shape(s) && DrEnabled(s, a) && LeftAccounted(s, x)
    ensures LeftAccounted(DrApply(s, a), FollowDrain(x, s, a))
  {
    assert Unread(s.drain)[..0] == [] && Flatten(Unread(s.drain)[..0]) == [];
    hide Flatten, InFiles, Unread, Leave;
    match a
    case DrOpen(_) => LeaveHolds(x, s.drain, 0);
    case DrSend =>
    case DrFileDone =>
    case DrAbort => LeaveHolds(x, s.drain, 0);
    case DrClose =>
  }

  lemma LeftStep(s: State, a: Action, x: Aside, gone: nat)
    requires Shape(s) && Enabled(s, a) && CanGo(s, a, gone) && LeftAccounted(s, x)
    ensures LeftAccounted(Apply(s, a), Follow(x, s, a, gone))
  {
    hide EnvEnabled, CbEnabled, InEnabled, EgEnabled, WdEnabled, DrEnabled, Shape, PartsOf, CanGo;
    hide EnvApply, CbApply, InApply, EgApply, WdApply, DrApply, FollowDrainWal, FollowDrain, Flatten;
    if a.Wd? {
      LeftDrainWal(s, a.drainWal, x, gone);
    } else if a.Dr? {
      LeftDrain(s, a.drain, x);
    } else {
      OthersStay(s, a);
    }
  }

  /** Points that leave the line for files put aside. */
  lemma PutAside(s: State, now: State, x: Aside, gone: nat)
    requires s.drain.Draining? && gone <= |Unread(s.drain)| && NothingInvented(s, x)
    requires now.recovered + now.admitted == s.recovered + s.admitted
    requires Bag(Line(PartsOf(now))) + Bag(InFiles(s.drain)) <= Bag(Line(PartsOf(s)))
    ensures NothingInvented(now, Leave(x, s.drain, gone))
  {
    LeaveHolds(x, s.drain, gone);
    var y := Leave(x, s.drain, gone);
    hide Leave, Line, PartsOf, Bag, Flatten, InFiles, Unread;
    Shift(Bag(Line(PartsOf(now))), Bag(InFiles(s.drain)), Bag(Line(PartsOf(s))), Bag(Flatten(x.left)),
          Bag(Flatten(y.left)), Bag(x.again), Bag(y.again), Bag(s.recovered + s.admitted));
  }

  lemma Shift<T>(now: multiset<T>, files: multiset<T>, was: multiset<T>, left: multiset<T>, left': multiset<T>,
                 again: multiset<T>, again': multiset<T>, all: multiset<T>)
    requires now + files <= was && was + left <= all + again && left' + again <= left + files + again'
    ensures now + left' <= all + again'
  {
    forall p
      ensures (now + left')[p] <= (all + again')[p]
    {
      assert (now + files)[p] <= was[p];
      assert (was + left)[p] <= (all + again)[p];
      assert (left' + again)[p] <= (left + files + again')[p];
    }
  }

  lemma InventedDrainWal(s: State, a: WdStep, x: Aside, gone: nat)
    requires Locking(s) && Shape(s) && WdEnabled(s, a) && CanGo(s, Wd(a), gone) && NothingInvented(s, x)
    ensures NothingInvented(WdApply(s, a), FollowDrainWal(x, s, a, gone))
  {
    var now := WdApply(s, a);
    if a.WdAbandon? {
      var p := PartsOf(s);
      var q := p.(files := []);
      TakeOutFiles(p, q);
      LoseDrain(q, PartsOf(now));
      BagOfMoves(Line(q), [], Line(PartsOf(now)));
      hide Leave, Line, Bag, Flatten, InFiles, Unread, EgHand, Taken, FlushHand;
      PutAside(s, now, x, gone);
    } else {
      OrderDrainWal(s, a);
      hide Locking, Shape, WdEnabled, PartsOf, Line, Bag, Flatten, WdApply;
      BagOfMoves(Line(PartsOf(s)), [], Line(PartsOf(now)));
    }
  }

  lemma InventedDrain(s: State, a: DrStep, x: Aside)
    requires Locking(s) && Shape(s) && DrEnabled(s, a) && NothingInvented(s, x)
    ensures NothingInvented(DrApply(s, a), FollowDrain(x, s, a))
  {
    var now := DrApply(s, a);
    if a.DrAbort? || (a.DrOpen? && !a.ok) {
      hide Leave, Line, Bag, Unread, EgHand, Taken, FlushHand;
      TakeOutFiles(PartsOf(s), PartsOf(now));
      PutAside(s, now, x, 0);
    } else {
      OrderDrain(s, a);
      hide Locking, Shape, PartsOf, Line, Bag, Flatten, Leave;
      BagOfMoves(Line(PartsOf(s)), [], Line(PartsOf(now)));
    }
  }

  lemma NothingInventedStep(s: State, a: Action, x: Aside, gone: nat)
    requires Locking(s) && Shape(s) && Enabled(s, a) && CanGo(s, a, gone) && NothingInvented(s, x)
    ensures NothingInvented(Apply(s, a), Follow(x, s, a, gone))
  {
    hide EnvEnabled, CbEnabled, InEnabled, EgEnabled, WdEnabled, DrEnabled, Shape, Locking, PartsOf, CanGo;
    hide EnvApply, CbApply, InApply, EgApply, WdApply, DrApply, FollowDrainWal, FollowDrain, Flatten, Bag, Line;
    if a.Wd? {
      InventedDrainWal(s, a.drainWal, x, gone);
    } else if a.Dr? {
      InventedDrain(s, a.drain, x);
    } else {
      OrderStep(s, a);
      var now := Apply(s, a);
      BagOfMoves(Line(PartsOf(s)), Admitted(a), Line(PartsOf(now)));
      assert now.recovered + now.admitted == s.recovered + s.admitted + Admitted(a);
      BagConcat(s.recovered + s.admitted, Admitted(a));
      Grow(Bag(Line(PartsOf(s))), Bag(Line(PartsOf(now))), Bag(Flatten(x.left)), Bag(s.recovered + s.admitted),
           Bag(Admitted(a)), Bag(x.again));
    }
  }

  lemma Grow<T>(was: multiset<T>, now: multiset<T>, left: multiset<T>, all: multiset<T>, added: multiset<T>,
                again: multiset<T>)
    requires now <= was + added && was + left <= all + again
    ensures now + left <= all + added + again
  {
    forall p
      ensures (now + left)[p] <= (all + added + again)[p]
    {
      assert now[p] <= (was + added)[p];
      assert (was + left)[p] <= (all + again)[p];
    }
  }

  lemma KnownStep(s: State, a: Action, x: Aside, gone: nat)
    requires Known(s, x) && Enabled(s, a) && CanGo(s, a, gone)
    ensures Known(Apply(s, a), Follow(x, s, a, gone))
  {
    hide Locking, Shape, Conserved, Wakeful, Moves, PartsOf, Line, Enabled, Apply, Follow, CanGo;
    hide ReadLast, LeftAccounted, NothingInvented;
    InvStep(s, a);
    ReadLastStep(s, a, x, gone);
    LeftStep(s, a, x, gone);
    NothingInventedStep(s, a, x, gone);
  }

  lemma KnownInitial(s: State)
    requires Initial(s)
    ensures Known(s, Aside([], [], [], 0))
  {
    InvInitial(s);
    hide Inv;
    var parts := PartsOf(s);
    assert Line(parts) == s.recovered + s.admitted;
    assert Flatten<Point>([]) == [];
  }

  /** It holds after every run, whatever the run leaves aside. */
  lemma {:induction false} EveryTrace(init: State, actions: seq<Action>, gone: seq<nat>, s: State, x: Aside)
    requires Traced(init, actions, gone, s, x)
    ensures Run(init, actions, s) && Known(s, x)
    decreases |actions|
  {
    hide Known, Enabled, Apply, Follow, CanGo, Initial;
    if actions == [] {
      KnownInitial(s);
    } else {
      var n := |actions| - 1;
      var before, y :|
        && Traced(init, actions[..n], gone[..n], before, y)
        && Enabled(before, actions[n]) && CanGo(before, actions[n], gone[n])
        && s == Apply(before, actions[n]) && x == Follow(y, before, actions[n], gone[n]);
      EveryTrace(init, actions[..n], gone[..n], before, y);
      KnownStep(before, actions[n], y, gone[n]);
    }
  }

  /** Every run leaves something aside, in at least one way. */
  lemma {:induction false} EveryRunIsTraced(init: State, actions: seq<Action>, s: State)
    returns (gone: seq<nat>, x: Aside)
    requires Run(init, actions, s)
    ensures Traced(init, actions, gone, s, x)
    decreases |actions|
  {
    hide Enabled, Apply, Follow, CanGo, Initial;
    if actions == [] {
      gone, x := [], Aside([], [], [], 0);
    } else {
      var n := |actions| - 1;
      var before :| Run(init, actions[..n], before) && Enabled(before, actions[n]) && s == Apply(before, actions[n]);
      var front, y := EveryRunIsTraced(init, actions[..n], before);
      EveryRun(init, actions[..n], before);
      CanGoNowhere(before, actions[n]);
      gone, x := front + [0], Follow(y, before, actions[n], 0);
      assert gone[..n] == front;
    }
  }

  lemma CanGoNowhere(s: State, a: Action)
    requires Inv(s)
    ensures CanGo(s, a, 0)
  {
    assert s.drain.Draining? ==> Unread(s.drain)[..0] == [] && Flatten(Unread(s.drain)[..0]) == [];
    hide Unread, Flatten, Locking, Conserved, Wakeful, Moves;
  }

  // ---- Across two runs

  lemma FoundIs(s: State, x: Aside)
    ensures |Flatten(OnDisk(s, x))| + |x.again|
            == |Flatten(x.left)| + |InFiles(s.drain)| + |Flatten(s.log.segs)| + |Repeats(s, x)|
    ensures Bag(Flatten(OnDisk(s, x))) + Bag(x.again)
            == Bag(Flatten(x.left)) + Bag(InFiles(s.drain)) + Bag(Flatten(s.log.segs)) + Bag(Repeats(s, x))
  {
    var mid := if s.drain.Draining? then StillThere(s.drain, x.read, 0) else [];
    FlattenConcat(x.left + mid, s.log.segs);
    FlattenConcat(x.left, mid);
    BagThree(Flatten(x.left), Flatten(mid), Flatten(s.log.segs));
    BagConcat(x.again, Partly(s.drain, x.read, 0));
    MidIs(s.drain, x.read, mid);
    hide Flatten, StillThere, Partly, InFiles, Bag;
  }

  lemma MidIs(d: Drain, read: seq<Point>, mid: seq<seq<Point>>)
    requires mid == if d.Draining? then StillThere(d, read, 0) else []
    ensures |Flatten(mid)| == |InFiles(d)| + |Partly(d, read, 0)|
    ensures Bag(Flatten(mid)) == Bag(InFiles(d)) + Bag(Partly(d, read, 0))
  {
    if d.Draining? {
      assert Unread(d)[..0] == [] && Flatten(Unread(d)[..0]) == [];
      StillThereHolds(d, read, 0);
    }
  }

  /** What a run has lost for good: the enumerated losses but for the files left, which the next run finds. */
  function GoneForGood(t: Tally, x: Aside): int {
    t.dropped - t.unsynced + t.unreadable + t.pruned + t.damaged + t.abandonedHand + x.swallowed
  }

  /** Where everything is when a run has ended, at whatever moment. */
  lemma Ended(s: State, x: Aside)
    requires Known(s, x)
    ensures GoneForGood(s.tally, x) >= 0
    ensures |s.output| + |InMemory(PartsOf(s))| + |Flatten(OnDisk(s, x))| + GoneForGood(s.tally, x)
            == |s.recovered| + |s.admitted| + |Repeats(s, x)|
    ensures Bag(s.output) + Bag(InMemory(PartsOf(s))) + Bag(Flatten(OnDisk(s, x)))
            <= Bag(s.recovered + s.admitted) + Bag(Repeats(s, x))
  {
    Balance(s);
    LineSize(PartsOf(s));
    LineBag(PartsOf(s));
    FoundIs(s, x);
    var p := PartsOf(s);
    hide Flatten, Bag, Line, InMemory, OnDisk, Repeats, InFiles, InChannel, EgHand, Taken, FlushHand;
    hide Locking, Shape, Wakeful, Moves, ReadLast;
    Regroup(Bag(p.out), Bag(InMemory(p)), Bag(p.files), Bag(p.log), Bag(Flatten(x.left)), Bag(x.again),
            Bag(Repeats(s, x)), Bag(Flatten(OnDisk(s, x))), Bag(s.recovered + s.admitted));
  }

  lemma Regroup<T>(out: multiset<T>, mem: multiset<T>, files: multiset<T>, log: multiset<T>, left: multiset<T>,
                   again: multiset<T>, repeats: multiset<T>, disk: multiset<T>, all: multiset<T>)
    requires out + mem + files + log + left <= all + again
    requires disk + again == left + files + log + repeats
    ensures out + mem + disk <= all + repeats
  {
    forall p
      ensures (out + mem + disk)[p] <= (all + repeats)[p]
    {
      assert (out + mem + files + log + left)[p] <= (all + again)[p];
      assert (disk + again)[p] == (left + files + log + repeats)[p];
    }
  }

  /** What two runs have not put out between them: what the first lost for good or still had in memory, and what the
      second lost or has not put out yet. */
  function Missing(s: State, x: Aside, next: State): int {
    GoneForGood(s.tally, x) + |InMemory(PartsOf(s))| + |Line(PartsOf(next))| - |next.output| + Lost(next.tally)
  }

  lemma {:induction false} RunStarts(init: State, actions: seq<Action>, s: State)
    requires Run(init, actions, s)
    ensures Initial(init)
    decreases |actions|
  {
    if actions != [] {
      hide Enabled, Apply, Initial;
      var n := |actions| - 1;
      var before :| Run(init, actions[..n], before) && Enabled(before, actions[n]) && s == Apply(before, actions[n]);
      RunStarts(init, actions[..n], before);
    }
  }

  lemma PutOut(init: State, actions: seq<Action>, s: State)
    requires Run(init, actions, s)
    ensures init.recovered == Flatten(init.log.segs)
    ensures Bag(s.output) <= Bag(init.recovered) + Bag(AdmittedBy(actions))
    ensures |s.output| <= |Line(PartsOf(s))| && Lost(s.tally) >= 0
    ensures |Line(PartsOf(s))| + Lost(s.tally) == |init.recovered| + |AdmittedBy(actions)|
  {
    RunStarts(init, actions, s);
    EveryRun(init, actions, s);
    NoLoss(init, actions, s);
    var p, origin := PartsOf(s), init.recovered + AdmittedBy(actions);
    LineSize(p);
    Balance(s);
    LineBag(p);
    BagOfMoves(origin, [], Line(p));
    BagConcat(origin, []);
    assert origin + [] == origin;
    BagConcat(init.recovered, AdmittedBy(actions));
    hide Flatten, Bag, Line, InMemory, PartsOf, Inv, Run, Lost;
  }

  lemma Together<T>(out: multiset<T>, mem: multiset<T>, disk: multiset<T>, all: multiset<T>, repeats: multiset<T>,
                    out2: multiset<T>, later: multiset<T>)
    requires out + mem + disk <= all + repeats && out2 <= disk + later
    ensures out + out2 <= all + later + repeats
  {
    forall p
      ensures (out + out2)[p] <= (all + later + repeats)[p]
    {
      assert (out + mem + disk)[p] <= (all + repeats)[p];
      assert out2[p] <= (disk + later)[p];
    }
  }

  lemma FewerOrAll<T>(a: multiset<T>, b: multiset<T>)
    requires a <= b
    ensures |a| <= |b| && (a == b <==> |a| == |b|)
  {
    assert b == a + (b - a);
    assert |b| == |a| + |b - a|;
  }

  /** Across a run that ends at any moment and the next one on the same directory. Nothing is put out that did not
      come in, and nothing twice but what the first run had read out of a file it left; at every moment what has been
      read of a file is the last of what was put out, in hand or in the channel. Everything else is put out except
      what is enumerated as missing, and the two together put out everything exactly when that is nothing. (A point
      read out of a file left and then lost in memory is both repeated and missing: it comes out once.) */
  lemma AcrossRuns(init: State, actions: seq<Action>, gone: seq<nat>, s: State, x: Aside,
                   init2: State, actions2: seq<Action>, s2: State)
    requires Traced(init, actions, gone, s, x)
    requires Run(init2, actions2, s2) && init2.log.segs == OnDisk(s, x)
    ensures var all := Bag(init.recovered + AdmittedBy(actions)) + Bag(AdmittedBy(actions2)) + Bag(Repeats(s, x));
            var out, missing := Bag(s.output) + Bag(s2.output), Missing(s, x, s2);
            out <= all && |out| + missing == |all| && missing >= 0 && (out == all <==> missing == 0)
    ensures ReadLast(s, x)
  {
    EveryTrace(init, actions, gone, s, x);
    EveryRun(init, actions, s);
    Ended(s, x);
    PutOut(init2, actions2, s2);
    var origin, later, repeats := init.recovered + AdmittedBy(actions), AdmittedBy(actions2), Repeats(s, x);
    hide Flatten, Line, InMemory, OnDisk, Repeats, PartsOf, Inv, ReadLast, Traced, Run, Lost, GoneForGood;
    hide LeftAccounted, NothingInvented;
    Together(Bag(s.output), Bag(InMemory(PartsOf(s))), Bag(init2.recovered), Bag(origin), Bag(repeats),
             Bag(s2.output), Bag(later));
    BagSize(s.output);
    BagSize(s2.output);
    BagSize(origin);
    BagSize(later);
    BagSize(repeats);
    hide Bag;
    FewerOrAll(Bag(s.output) + Bag(s2.output), Bag(origin) + Bag(later) + Bag(repeats));
  }
}
