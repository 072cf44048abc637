/** The rolling window of thermal samples kept in place (internal/health/window.go). */
module ThermalWindow {
  import opened Seqs
  import opened Recovery
  import opened SpikeStart

  /** Thirty minutes, in nanoseconds. */
  const WINDOW := 30 * 60 * NANOS_PER_SECOND
  const MAX_SAMPLES := 2000

  /** How many samples at the front are older than the cutoff. */
  function Older(s: seq<Sample>, cutoff: int): (k: nat)
    ensures k <= |s| && (forall i :: 0 <= i < k ==> s[i].at < cutoff) && (k < |s| ==> s[k].at >= cutoff)
  {
    if s == [] || s[0].at >= cutoff then 0 else 1 + Older(s[1..], cutoff)
  }

  /** All samples that are not older than the cutoff. */
  function Recent(s: seq<Sample>, cutoff: int): seq<Sample> {
    if s == [] then []
    else Recent(s[..|s| - 1], cutoff) + if s[|s| - 1].at >= cutoff then [s[|s| - 1]] else []
  }

  /** Times do not decrease, and none is later than latest. */
  ghost predicate InOrder(s: seq<Sample>, latest: int) {
    && (forall i, j :: 0 <= i < j < |s| ==> s[i].at <= s[j].at)
    && (forall i :: 0 <= i < |s| ==> s[i].at <= latest)
  }

  lemma {:induction false} RecentInOrder(s: seq<Sample>, latest: int, cutoff: int)
    requires InOrder(s, latest)
    ensures Recent(s, cutoff) == s[Older(s, cutoff)..]
  {
    if s == [] {
    } else {
      var n := |s| - 1;
      RecentInOrder(s[..n], latest, cutoff);
      OlderTake(s, latest, cutoff);
      hide Older;
      if s[n].at >= cutoff {
        DropSnoc(s, Older(s, cutoff));
      } else {
        assert s[..n][n..] + [] == s[|s|..];
      }
    }
  }

  lemma OlderTake(s: seq<Sample>, latest: int, cutoff: int)
    requires s != [] && InOrder(s, latest)
    ensures var n := |s| - 1;
            if s[n].at >= cutoff then Older(s[..n], cutoff) == Older(s, cutoff) <= n
            else Older(s[..n], cutoff) == n && Older(s, cutoff) == |s|
  {
    hide Older;
    var n := |s| - 1;
    if s[n].at >= cutoff {
      OlderIs(s[..n], cutoff, Older(s, cutoff));
    } else {
      OlderIs(s[..n], cutoff, n);
      OlderIs(s, cutoff, |s|);
    }
  }

  /** Older finds the first sample that is not older. */
  lemma OlderIs(s: seq<Sample>, cutoff: int, k: nat)
    requires k <= |s| && (forall i :: 0 <= i < k ==> s[i].at < cutoff) && (k < |s| ==> s[k].at >= cutoff)
    ensures Older(s, cutoff) == k
  {
  }

  /** The newest samples of the history, up to the limit, among those within the window before latest. */
  function Window(history: seq<Sample>, latest: int): seq<Sample> {
    LastN(MAX_SAMPLES, Recent(history, latest - WINDOW))
  }

  /** What pruning and capping leave. */
  function Trimmed(samples: seq<Sample>, now: int): seq<Sample> {
    LastN(MAX_SAMPLES, samples[Older(samples, now - WINDOW)..])
  }

  /** Where the window starts in a history whose times do not decrease. */
  function Front(s: seq<Sample>, latest: int): (a: nat)
    ensures a <= |s|
  {
    var k := Older(s, latest - WINDOW);
    if |s| - k <= MAX_SAMPLES then k else |s| - MAX_SAMPLES
  }

  lemma WindowInOrder(s: seq<Sample>, latest: int)
    requires InOrder(s, latest)
    ensures Window(s, latest) == s[Front(s, latest)..]
  {
    hide Recent, Older;
    RecentInOrder(s, latest, latest - WINDOW);
  }

  /** Pruning a suffix prunes the whole as far as the suffix goes. */
  lemma OlderInSuffix(s: seq<Sample>, latest: int, a: nat, cutoff: int)
    requires InOrder(s, latest) && a <= |s|
    ensures var k := Older(s, cutoff);
            Older(s[a..], cutoff) == if k >= a then k - a else 0
  {
    hide Older;
    var k := Older(s, cutoff);
    if k >= a {
      assert forall i :: 0 <= i < k - a ==> s[a..][i] == s[a + i];
      OlderIs(s[a..], cutoff, k - a);
    } else {
      assert a < |s| ==> s[a..][0] == s[a];
      OlderIs(s[a..], cutoff, 0);
    }
  }

  /** Pruning and capping what is left of the history so far is the same as pruning and capping all of it. */
  lemma WindowStep(history: seq<Sample>, latest: int, more: seq<Sample>, now: int)
    requires InOrder(history, latest) && InOrder(history + more, now) && latest <= now && |more| <= 1
    ensures Trimmed(Window(history, latest) + more, now) == Window(history + more, now)
  {
    hide Recent, Older, Window, InOrder, LastN;
    var all, a := history + more, Front(history, latest);
    WindowInOrder(history, latest);
    WindowInOrder(all, now);
    OlderInSuffix(all, now, a, now - WINDOW);
    FrontMoves(history, latest, more, now);
    DropOfConcat(history, more, a);
    var m := Older(all[a..], now - WINDOW);
    LastOfDrops(MAX_SAMPLES, all, a, m);
  }

  lemma FrontMoves(history: seq<Sample>, latest: int, more: seq<Sample>, now: int)
    requires InOrder(history, latest) && InOrder(history + more, now) && latest <= now && |more| <= 1
    ensures Older(history, latest - WINDOW) <= Older(history + more, now - WINDOW)
  {
    hide Older;
    var all := history + more;
    var k, k' := Older(history, latest - WINDOW), Older(all, now - WINDOW);
    assert forall i :: 0 <= i < |history| ==> all[i] == history[i];
  }

  lemma TrimmedLast(samples: seq<Sample>, s: Sample)
    ensures var after := Trimmed(samples + [s], s.at); after != [] && after[|after| - 1] == s
  {
    assert (samples + [s])[|samples|] == s;
  }

  lemma WindowOfOne(s: Sample)
    ensures InOrder([s], s.at) && Trimmed([s], s.at) == [s] == Window([s], s.at)
  {
    assert [s][..0] == [] && Recent([s][..0], s.at - WINDOW) == [];
  }

  lemma InOrderLater(history: seq<Sample>, latest: int, now: int)
    requires InOrder(history, latest) && latest <= now
    ensures InOrder(history, now)
  {
  }

  lemma InOrderSnoc(history: seq<Sample>, latest: int, s: Sample)
    requires InOrder(history, latest) && latest <= s.at
    ensures InOrder(history + [s], s.at)
  {
  }

  /** In a history whose times do not decrease the window is the end of it: no more than 2000 samples, none older than
      thirty minutes, and it ends there for one of these reasons. */
  lemma WindowIsTheEnd(history: seq<Sample>, now: int)
    requires InOrder(history, now)
    ensures var w := Window(history, now);
            && |w| <= |history| && w == history[|history| - |w|..] && |w| <= 2000
            && (forall x :: x in w ==> x.at >= now - 1_800_000_000_000)
            && (w != history ==> |w| == 2000 || history[|history| - |w| - 1].at < now - 1_800_000_000_000)
  {
    WindowInOrder(history, now);
    hide Recent, Window;
    var k, a := Older(history, now - WINDOW), Front(history, now);
    assert forall i :: a <= i < |history| ==> history[k].at <= history[i].at;
    assert history[0..] == history;
  }

  /** The window holds what it should, as long as the times it was pruned by never went back. */
  ghost predicate Faithful(samples: seq<Sample>, history: seq<Sample>, latest: int, ordered: bool) {
    && (history == [] ==> samples == [])
    && (ordered && history != [] ==> InOrder(history, latest) && samples == Window(history, latest))
  }

  ghost predicate StillOrdered(ordered: bool, history: seq<Sample>, latest: int, now: int) {
    ordered && (history != [] ==> now >= latest)
  }

  lemma FaithfulAppend(samples: seq<Sample>, history: seq<Sample>, latest: int, ordered: bool, s: Sample)
    requires Faithful(samples, history, latest, ordered)
    ensures Faithful(Trimmed(samples + [s], s.at), history + [s], s.at, StillOrdered(ordered, history, latest, s.at))
  {
    hide Older, Window, Recent, InOrder, Trimmed, LastN;
    if history == [] {
      assert [] + [s] == [s];
      WindowOfOne(s);
    } else if ordered && s.at >= latest {
      InOrderSnoc(history, latest, s);
      WindowStep(history, latest, [s], s.at);
    }
  }

  lemma FaithfulSnapshot(samples: seq<Sample>, history: seq<Sample>, latest: int, ordered: bool, now: int)
    requires Faithful(samples, history, latest, ordered)
    ensures Faithful(Trimmed(samples, now), history, now, StillOrdered(ordered, history, latest, now))
  {
    assert Trimmed([], now) == [];
    hide Older, Window, Recent, InOrder, Trimmed, LastN;
    if history != [] && ordered && now >= latest {
      assert history + [] == history && samples + [] == samples;
      InOrderLater(history, latest, now);
      WindowStep(history, latest, [], now);
    }
  }

  lemma EndOfHistory(samples: seq<Sample>, history: seq<Sample>, latest: int, ordered: bool)
    requires Faithful(samples, history, latest, ordered)
    ensures ordered ==>
              && |samples| <= |history| && samples == history[|history| - |samples|..] && |samples| <= 2000
              && (forall x :: x in samples ==> x.at >= latest - 1_800_000_000_000)
              && (samples != history ==>
                    |samples| == 2000 || history[|history| - |samples| - 1].at < latest - 1_800_000_000_000)
  {
    if ordered && history != [] {
      WindowIsTheEnd(history, latest);
    }
  }

  class RollingSeries {
    var samples: seq<Sample>
    var firstSeenAt: int
    var spikeSegmentStart: int

    /** Everything appended, the last time pruned by, and whether those times never went back. */
    ghost var history: seq<Sample>
    ghost var latest: int
    ghost var ordered: bool

    ghost predicate Valid()
      reads this
    {
      |samples| <= MAX_SAMPLES && Faithful(samples, history, latest, ordered)
    }

    constructor ()
      ensures Valid() && samples == history == [] && ordered && spikeSegmentStart == firstSeenAt == 0
    {
      samples, firstSeenAt, spikeSegmentStart := [], 0, 0;
      history, latest, ordered := [], 0, true;
    }

    /** pruneLocked. */
    method Prune(now: int)
      modifies this`samples
      ensures samples == old(samples)[Older(old(samples), now - WINDOW)..]
      ensures forall i :: 0 <= i < |old(samples)| - |samples| ==> old(samples)[i].at < now - 1_800_000_000_000
      ensures samples != [] ==> samples[0].at >= now - 1_800_000_000_000
    {
      var cutoff := now - WINDOW;
      var i := 0;
      while i < |samples| && samples[i].at < cutoff
        invariant i <= |samples| && forall j :: 0 <= j < i ==> samples[j].at < cutoff
      {
        i := i + 1;
      }
      assert i == Older(samples, cutoff);
      if i > 0 {
        samples := samples[i..];
      }
    }

    /** capLocked. */
    method Cap()
      modifies this`samples
      ensures samples == LastN(2000, old(samples))
    {
      if |samples| > MAX_SAMPLES {
        samples := samples[|samples| - MAX_SAMPLES..];
      }
    }

    method PruneAndCap(now: int)
      modifies this`samples
      ensures samples == Trimmed(old(samples), now) && |samples| <= MAX_SAMPLES
    {
      Prune(now);
      Cap();
    }

    /** append. As long as time does not go back, the window is what it would be had nothing ever been thrown
        away before. */
    method Append(s: Sample)
      requires Valid()
      modifies this`samples, this`firstSeenAt, this`history, this`latest, this`ordered
      ensures Valid()
      ensures history == old(history) + [s] && latest == s.at
      ensures ordered == StillOrdered(old(ordered), old(history), old(latest), s.at)
      ensures ordered ==> samples == Window(history, s.at)
      ensures samples == Trimmed(old(samples) + [s], s.at)
      ensures ordered ==>
                && |samples| <= |history| && samples == history[|history| - |samples|..] && |samples| <= 2000
                && (forall x :: x in samples ==> x.at >= s.at - 1_800_000_000_000)
                && (samples != history ==>
                      |samples| == 2000 || history[|history| - |samples| - 1].at < s.at - 1_800_000_000_000)
      ensures samples != [] && samples[|samples| - 1] == s
      ensures firstSeenAt == if old(firstSeenAt) == 0 then s.at else old(firstSeenAt)
    {
      hide Trimmed, StillOrdered, Window, InOrder;
      if firstSeenAt == 0 {
        firstSeenAt := s.at;
      }
      FaithfulAppend(samples, history, latest, ordered, s);
      TrimmedLast(samples, s);
      samples := samples + [s];
      PruneAndCap(s.at);
      ordered := StillOrdered(ordered, history, latest, s.at);
      EndOfHistory(samples, history + [s], s.at, ordered);
      history, latest := history + [s], s.at;
    }

    /** snapshot. */
    method Snapshot(now: int) returns (out: seq<Sample>)
      requires Valid()
      modifies this`samples, this`latest, this`ordered
      ensures Valid() && out == samples && latest == now
      ensures ordered == StillOrdered(old(ordered), history, old(latest), now)
      ensures ordered && history != [] ==> out == Window(history, now)
      ensures samples == Trimmed(old(samples), now)
      ensures ordered ==>
                && |samples| <= |history| && samples == history[|history| - |samples|..] && |samples| <= 2000
                && (forall x :: x in samples ==> x.at >= now - 1_800_000_000_000)
                && (samples != history ==>
                      |samples| == 2000 || history[|history| - |samples| - 1].at < now - 1_800_000_000_000)
    {
      hide Trimmed, StillOrdered, Window, InOrder;
      FaithfulSnapshot(samples, history, latest, ordered, now);
      PruneAndCap(now);
      ordered := StillOrdered(ordered, history, latest, now);
      EndOfHistory(samples, history, now, ordered);
      latest := now;
      out := samples;
    }

    /** updateSpikeSegmentStart. */
    method UpdateSpikeSegmentStart(target: real)
      modifies this`spikeSegmentStart
      ensures spikeSegmentStart == Updated(old(spikeSegmentStart), samples, |samples|, target)
      ensures samples == [] ==> spikeSegmentStart == 0
    {
      if |samples| == 0 {
        spikeSegmentStart := 0;
        return;
      }
      var last := samples[|samples| - 1];
      if !last.tempCPresent {
        return;
      }
      if last.tempC > target {
        if |samples| == 1 {
          spikeSegmentStart := last.at;
          return;
        }
        var prev := samples[|samples| - 2];
        if !prev.tempCPresent || prev.tempC < target {
          spikeSegmentStart := last.at;
        }
      } else {
        spikeSegmentStart := 0;
      }
    }

    /** What the engine does with a point: append, then look at the spike. While nothing has been evicted and the
        target stays the same, the kept start is the one kept over the whole history. */
    method Observe(s: Sample, target: real)
      requires Valid()
      modifies this`samples, this`firstSeenAt, this`history, this`latest, this`ordered, this`spikeSegmentStart
      ensures Valid() && history == old(history) + [s]
      ensures samples == history && old(spikeSegmentStart) == Kept(old(history), target, |old(history)|) ==>
                spikeSegmentStart == Kept(history, target, |history|)
    {
      hide Trimmed, Window, InOrder, StillOrdered, Faithful, LastN;
      Append(s);
      UpdateSpikeSegmentStart(target);
      KeptOfPrefix(old(history), s, target, |old(history)|);
    }
  }

  lemma {:induction false} KeptOfPrefix(s: seq<Sample>, x: Sample, target: real, n: nat)
    requires n <= |s|
    ensures Kept(s + [x], target, n) == Kept(s, target, n)
    decreases n
  {
    if n > 0 {
      KeptOfPrefix(s, x, target, n - 1);
    }
  }
}
