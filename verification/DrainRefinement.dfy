/** The drain goroutine, its receiver and the consumer as steps of the concurrent model: what Wal.WAL.DrainFiles
    promises of the files is what reaches the output. */
module DrainRefinement {
  import opened Seqs
  import opened Points
  import opened WalSpec
  import opened BufferModel
  import opened BufferRefinement

  /** A drain is under way, and nothing it sent is still on its way to the consumer. */
  ghost predicate Flowing(s: State) {
    s.eg.Receiving? && s.drain.Draining? && s.drain.ch == [] && !s.drain.closed && s.received == |s.output|
  }

  /** s after the drain has moved on to d and the consumer has received ps. */
  function After(s: State, d: Drain, ps: seq<Point>): State {
    s.(drain := d, output := s.output + ps, received := |s.output| + |ps|,
       tally := s.tally.(walDrained := s.tally.walDrained + |ps|))
  }

  lemma AfterAfter(s: State, d: Drain, ps: seq<Point>, d': Drain, ps': seq<Point>)
    ensures After(After(s, d, ps), d', ps') == After(s, d', ps + ps')
  {
    assert s.output + ps + ps' == s.output + (ps + ps');
  }

  lemma AfterFlows(s: State, d: Drain, ps: seq<Point>)
    requires Flowing(s) && d.Draining? && d.ch == [] && !d.closed
    ensures Flowing(After(s, d, ps)) && After(s, d, ps).drain == d
  {
  }

  lemma AfterNothing(s: State)
    requires Flowing(s)
    ensures After(s, s.drain, []) == s
  {
    assert s.output + [] == s.output;
  }

  /** One point: sent, received, put out, and consumed. */
  lemma OnePoint(s: State)
    requires Flowing(s) && s.drain.cur.Some? && s.drain.cur.value != []
    ensures var c := s.drain.cur.value;
            Solo(s, [Dr(DrSend), Wd(WdReceive), Wd(WdEmit), Env(Receive)],
                 After(s, s.drain.(cur := Some(c[1..])), [c[0]]))
  {
    var x, less := s.drain.cur.value[0], s.drain.(cur := Some(s.drain.cur.value[1..]));
    var sent := s.(drain := less.(ch := [x]));
    var taken := s.(drain := less, eg := EmittingDrained(x), tally := s.tally.(walDrained := s.tally.walDrained + 1));
    var out := taken.(output := s.output + [x], eg := Receiving);
    SendAndTake(s, x, less, sent, taken);
    EmitAndConsume(s, x, less, taken, out);
    hide Solo, After, Flowing;
    SoloConcat(s, [Dr(DrSend), Wd(WdReceive)], taken, [Wd(WdEmit), Env(Receive)], After(s, less, [x]));
    assert [Dr(DrSend), Wd(WdReceive)] + [Wd(WdEmit), Env(Receive)]
           == [Dr(DrSend), Wd(WdReceive), Wd(WdEmit), Env(Receive)];
  }

  lemma SendAndTake(s: State, x: Point, less: Drain, sent: State, taken: State)
    requires Flowing(s) && s.drain.cur.Some? && s.drain.cur.value != [] && x == s.drain.cur.value[0]
    requires less == s.drain.(cur := Some(s.drain.cur.value[1..])) && sent == s.(drain := less.(ch := [x]))
    requires taken == s.(drain := less, eg := EmittingDrained(x),
                         tally := s.tally.(walDrained := s.tally.walDrained + 1))
    ensures Solo(s, [Dr(DrSend), Wd(WdReceive)], taken)
  {
    assert s.drain.ch + [x] == [x];
    assert DrEnabled(s, DrSend) && DrApply(s, DrSend) == sent;
    SoloOne(s, Dr(DrSend));
    assert [x][1..] == [];
    assert WdEnabled(sent, WdReceive) && WdApply(sent, WdReceive) == taken;
    SoloOne(sent, Wd(WdReceive));
    hide Solo, DrApply, WdApply;
    SoloConcat(s, [Dr(DrSend)], sent, [Wd(WdReceive)], taken);
    assert [Dr(DrSend)] + [Wd(WdReceive)] == [Dr(DrSend), Wd(WdReceive)];
  }

  lemma EmitAndConsume(s: State, x: Point, less: Drain, taken: State, out: State)
    requires Flowing(s) && less.Draining?
    requires taken == s.(drain := less, eg := EmittingDrained(x),
                         tally := s.tally.(walDrained := s.tally.walDrained + 1))
    requires out == taken.(output := s.output + [x], eg := Receiving)
    ensures Solo(taken, [Wd(WdEmit), Env(Receive)], After(s, less, [x]))
  {
    assert WdEnabled(taken, WdEmit) && WdApply(taken, WdEmit) == out;
    SoloOne(taken, Wd(WdEmit));
    assert EnvEnabled(out, Receive) && EnvApply(out, Receive) == After(s, less, [x]);
    SoloOne(out, Env(Receive));
    hide Solo, EnvApply, WdApply;
    SoloConcat(taken, [Wd(WdEmit)], out, [Env(Receive)], After(s, less, [x]));
    assert [Wd(WdEmit)] + [Env(Receive)] == [Wd(WdEmit), Env(Receive)];
  }

  /** The first n points of the file being read. */
  lemma {:induction false} SomePoints(s: State, n: nat) returns (steps: seq<Action>)
    requires Flowing(s) && s.drain.cur.Some? && n <= |s.drain.cur.value|
    ensures Solo(s, steps, After(s, s.drain.(cur := Some(s.drain.cur.value[n..])), s.drain.cur.value[..n]))
    decreases n
  {
    var c := s.drain.cur.value;
    if n == 0 {
      steps := [];
      assert c[0..] == c && s.drain.(cur := Some(c[0..])) == s.drain;
      AfterNothing(s);
    } else {
      OnePoint(s);
      var mid := s.drain.(cur := Some(c[1..]));
      AfterFlows(s, mid, [c[0]]);
      hide Solo, After, Flowing;
      var rest := SomePoints(After(s, mid, [c[0]]), n - 1);
      AfterAfter(s, mid, [c[0]], s.drain.(cur := Some(c[n..])), c[1..][..n - 1]);
      assert [c[0]] + c[1..][..n - 1] == c[..n] && c[1..][n - 1..] == c[n..];
      steps := Joined(s, [Dr(DrSend), Wd(WdReceive), Wd(WdEmit), Env(Receive)], After(s, mid, [c[0]]), rest,
                      After(s, s.drain.(cur := Some(c[n..])), c[..n]));
    }
  }

  lemma Joined(s: State, a: seq<Action>, mid: State, b: seq<Action>, s': State) returns (steps: seq<Action>)
    requires Solo(s, a, mid) && Solo(mid, b, s')
    ensures steps == a + b && Solo(s, steps, s')
  {
    hide Solo;
    steps := a + b;
    SoloConcat(s, a, mid, b, s');
  }

  /** The next file is opened. */
  lemma OpenNext(s: State)
    requires Flowing(s) && s.drain.cur.None? && s.drain.rest != []
    ensures Solo(s, [Dr(DrOpen(true))], After(s, s.drain.(cur := Some(s.drain.rest[0]), rest := s.drain.rest[1..]), []))
  {
    SoloOne(s, Dr(DrOpen(true)));
    assert s.output + [] == s.output;
  }

  /** A file is read out and done with. */
  lemma WholeFile(s: State) returns (steps: seq<Action>)
    requires Flowing(s) && s.drain.cur.None? && s.drain.rest != []
    ensures Solo(s, steps, After(s, s.drain.(rest := s.drain.rest[1..]), s.drain.rest[0]))
  {
    var file := s.drain.rest[0];
    var read := s.drain.(cur := Some([]), rest := s.drain.rest[1..]);
    var points := PartOfFile(s, |file|);
    assert file[..|file|] == file && file[|file|..] == [];
    var done := After(s, read, file);
    FileDone(s, file);
    hide Solo, After;
    steps := Joined(s, points, done, [Dr(DrFileDone)], After(s, s.drain.(rest := s.drain.rest[1..]), file));
  }

  /** A file is opened and its first n points come out. */
  lemma PartOfFile(s: State, n: nat) returns (steps: seq<Action>)
    requires Flowing(s) && s.drain.cur.None? && s.drain.rest != [] && n <= |s.drain.rest[0]|
    ensures var file := s.drain.rest[0];
            Solo(s, steps, After(s, s.drain.(cur := Some(file[n..]), rest := s.drain.rest[1..]), file[..n]))
  {
    hide Solo;
    var file := s.drain.rest[0];
    OpenNext(s);
    var begun := After(s, s.drain.(cur := Some(file), rest := s.drain.rest[1..]), []);
    var points := SomePoints(begun, n);
    var read := s.drain.(cur := Some(file[n..]), rest := s.drain.rest[1..]);
    AfterAfter(s, begun.drain, [], read, file[..n]);
    assert [] + file[..n] == file[..n];
    hide After;
    steps := Joined(s, [Dr(DrOpen(true))], begun, points, After(s, read, file[..n]));
  }

  lemma FileDone(s: State, file: seq<Point>)
    requires Flowing(s)
    ensures var done := After(s, s.drain.(cur := Some([]), rest := Tail(s.drain.rest)), file);
            Solo(done, [Dr(DrFileDone)], After(s, s.drain.(cur := None, rest := Tail(s.drain.rest)), file))
  {
    var done := After(s, s.drain.(cur := Some([]), rest := Tail(s.drain.rest)), file);
    SoloOne(done, Dr(DrFileDone));
    hide Solo;
  }

  /** The first k files. */
  lemma {:induction false} WholeFiles(s: State, k: nat) returns (steps: seq<Action>)
    requires Flowing(s) && s.drain.cur.None? && k <= |s.drain.rest|
    ensures Solo(s, steps, After(s, s.drain.(rest := s.drain.rest[k..]), Flatten(s.drain.rest[..k])))
    decreases k
  {
    var all := s.drain.rest;
    if k == 0 {
      steps := [];
      assert all[0..] == all && all[..0] == [] && s.drain.(rest := all[0..]) == s.drain;
      AfterNothing(s);
    } else {
      var mid := s.drain.(rest := all[1..]);
      assert all[1..][k - 1..] == all[k..] && all[..k][1..] == all[1..][..k - 1];
      assert Flatten(all[..k]) == all[0] + Flatten(all[1..][..k - 1]);
      hide Solo, Flatten;
      var first := WholeFile(s);
      AfterFlows(s, mid, all[0]);
      hide After, Flowing;
      var rest := WholeFiles(After(s, mid, all[0]), k - 1);
      AfterAfter(s, mid, all[0], s.drain.(rest := all[k..]), Flatten(all[1..][..k - 1]));
      steps := Joined(s, first, After(s, mid, all[0]), rest, After(s, s.drain.(rest := all[k..]), Flatten(all[..k])));
    }
  }

  /** Where drainWAL leaves the manager once the channel is closed and empty. */
  function Returned(s: State): State {
    s.(drain := NoDrain, ing := if s.ing.NotStarted? then Idle else s.ing,
       eg := if s.cancelled && !s.ing.NotStarted? then EgEnded else Top)
  }

  /** s once its drain has closed the channel, orphaning what it has not sent. */
  function Closed(s: State): State {
    s.(drain := Draining(None, [], [], true),
       tally := s.tally.(orphaned := s.tally.orphaned + |InFiles(s.drain)|))
  }

  lemma CloseDrain(s: State) returns (stop: DrStep)
    requires Flowing(s) && (s.drain.cur.Some? ==> s.drain.cur.value != [] && s.cancelled)
    ensures DrEnabled(s, stop) && DrApply(s, stop) == Closed(s)
  {
    stop := if s.drain.cur.Some? then DrAbort else if s.drain.rest == [] then DrClose else DrOpen(false);
    assert Flatten<Point>([]) == [];
    hide Flatten;
  }

  /** The last steps: no file left; the next one cannot be opened; or a cancellation is noticed in mid-file. */
  lemma EndOfDrain(s: State) returns (steps: seq<Action>)
    requires Flowing(s) && (s.drain.cur.Some? ==> s.drain.cur.value != [] && s.cancelled)
    ensures Solo(s, steps, Returned(Closed(s)))
  {
    hide Solo, InFiles;
    var stop := CloseDrain(s);
    hide DrApply, DrEnabled;
    SoloOne(s, Dr(stop));
    SoloOne(Closed(s), Wd(WdReturn));
    hide Closed;
    steps := Joined(s, [Dr(stop)], Closed(s), [Wd(WdReturn)], Returned(Closed(s)));
  }

  /** A whole drain, as Wal.WAL.DrainFiles's contract has it without faults in reading: the first k files come out,
      and of the next one, if the drain stops there on a cancellation, its first n points. All else is orphaned. */
  lemma DrainBySteps(s: State, k: nat, n: nat) returns (steps: seq<Action>, s': State)
    requires s.eg.CallingDrain? && s.received == |s.output| && k <= |s.log.segs|
    requires n > 0 ==> k < |s.log.segs| && n < |s.log.segs[k]| && s.cancelled
    ensures Solo(s, steps, s')
    ensures var files := s.log.segs;
            var out := Flatten(files[..k]) + if n > 0 then files[k][..n] else [];
            && s'.output == s.output + out && s'.received == |s'.output|
            && s'.tally.walDrained == s.tally.walDrained + |out|
            && s'.tally.orphaned == s.tally.orphaned + |Flatten(files)| - |out|
            && s'.log == Log([], false, true) && s'.drain.NoDrain? && s'.ring == s.ring && s'.connected == s.connected
  {
    var files := s.log.segs;
    var called := Apply(s, Wd(WdCallDrain));
    assert called == s.(drain := Draining(None, files, [], false), log := Log([], false, true), eg := Receiving);
    SoloOne(s, Wd(WdCallDrain));
    hide Solo, Apply, Enabled, Flatten;
    var whole := WholeFiles(called, k);
    var mid := After(called, called.drain.(rest := files[k..]), Flatten(files[..k]));
    steps := Joined(s, [Wd(WdCallDrain)], called, whole, mid);
    var out, stopped := Flatten(files[..k]), mid;
    if n > 0 {
      var part := PartOfFile(mid, n);
      assert files[k..][0] == files[k] && files[k..][1..] == files[k + 1..];
      stopped := After(called, Draining(Some(files[k][n..]), files[k + 1..], [], false), out + files[k][..n]);
      AfterAfter(called, mid.drain, out, stopped.drain, files[k][..n]);
      steps := Joined(s, steps, mid, part, stopped);
      out := out + files[k][..n];
    }
    var last := EndOfDrain(stopped);
    s' := Returned(Closed(stopped));
    steps := Joined(s, steps, stopped, last, s');
    LeftInFiles(files, k, n);
    assert out + [] == out;
  }

  lemma LeftInFiles(files: seq<seq<Point>>, k: nat, n: nat)
    requires k <= |files| && (n > 0 ==> k < |files| && n <= |files[k]|)
    ensures |Flatten(files)| == |Flatten(files[..k])| + |Flatten(files[k..])|
    ensures n > 0 ==> |Flatten(files[k..])| == |files[k][..n]| + |files[k][n..]| + |Flatten(files[k + 1..])|
  {
    FlattenSplit(files, k);
    if n > 0 {
      assert files[k..][0] == files[k] && files[k..][1..] == files[k + 1..];
    }
  }
}
