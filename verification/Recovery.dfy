/** Thermal spikes and recoveries in a window of samples (internal/health/window.go). */
module Recovery {
  import opened Seqs

  const NANOS_PER_SECOND := 1_000_000_000

  /** Times are nanoseconds since Go's zero time, which is 0. */
  datatype Sample = Sample(at: int, tempC: real, tempCPresent: bool, utilPct: real, powerW: real)

  predicate Above(s: Sample, target: real) {
    s.tempCPresent && s.tempC > target
  }

  predicate Below(s: Sample, target: real) {
    s.tempCPresent && s.tempC < target
  }

  predicate Hot(s: Sample, target: real) {
    s.tempCPresent && s.tempC >= target
  }

  // ---- What a recovery is

  /** The start of the run that reaches up to k: everything behind the last sample below the target. */
  function RunStart(s: seq<Sample>, target: real, k: nat): (r: nat)
    requires k <= |s|
    ensures r <= k && (forall i :: r <= i < k ==> !Below(s[i], target))
    ensures r > 0 ==> Below(s[r - 1], target)
  {
    if k == 0 || Below(s[k - 1], target) then k else RunStart(s, target, k - 1)
  }

  /** The scan's maximum starts from -1 degrees. */
  predicate Counts(s: Sample, target: real) {
    Hot(s, target) && s.tempC >= -1.0
  }

  /** p is the last maximum of s[lo..hi]. */
  ghost predicate IsPeak(s: seq<Sample>, target: real, lo: nat, hi: nat, p: nat)
    requires hi <= |s|
  {
    && lo <= p < hi && Counts(s[p], target)
    && forall i :: lo <= i < hi && Counts(s[i], target) ==>
         s[i].tempC <= s[p].tempC && (i > p ==> s[i].tempC < s[p].tempC)
  }

  lemma PeakUnique(s: seq<Sample>, target: real, lo: nat, hi: nat, p: nat, q: nat)
    requires hi <= |s| && IsPeak(s, target, lo, hi, p) && IsPeak(s, target, lo, hi, q)
    ensures p == q
  {
  }

  /** Sample k ends a run that was strictly above the target at some point. */
  ghost predicate Completes(s: seq<Sample>, target: real, k: nat)
    requires k < |s|
  {
    && Below(s[k], target)
    && (exists i :: RunStart(s, target, k) <= i < k && Above(s[i], target))
    && (exists i :: RunStart(s, target, k) <= i < k && Counts(s[i], target))
  }

  /** What is reported of a recovery; NONE is reported when there has not been one. */
  datatype Report = Report(sec: int, peakC: real, at: int)

  const NONE := Report(0, 0.0, 0)

  /** Whole seconds, none when the clock went backwards. */
  function Seconds(nanos: int): (r: int)
    ensures nanos < 0 ==> r == 0
    ensures nanos >= 0 ==> r * NANOS_PER_SECOND <= nanos < (r + 1) * NANOS_PER_SECOND
  {
    if nanos < 0 then 0 else nanos / NANOS_PER_SECOND
  }

  ghost predicate Describes(s: seq<Sample>, target: real, k: nat, r: Report)
    requires k < |s|
  {
    && r.at == s[k].at
    && exists p: nat :: IsPeak(s, target, RunStart(s, target, k), k, p)
                   && r.peakC == s[p].tempC && r.sec == Seconds(s[k].at - s[p].at)
  }

  lemma DescribesUnique(s: seq<Sample>, target: real, k: nat, a: Report, b: Report)
    requires k < |s| && Describes(s, target, k, a) && Describes(s, target, k, b)
    ensures a == b
  {
    var lo := RunStart(s, target, k);
    var p: nat :| IsPeak(s, target, lo, k, p) && a.peakC == s[p].tempC && a.sec == Seconds(s[k].at - s[p].at);
    var q: nat :| IsPeak(s, target, lo, k, q) && b.peakC == s[q].tempC && b.sec == Seconds(s[k].at - s[q].at);
    PeakUnique(s, target, lo, k, p, q);
  }

  /** A later recovery replaces an earlier one unless its time is not later. */
  function Newer(before: Report, now: Report): Report {
    if before.at == 0 || now.at > before.at then now else before
  }

  /** r is what the recoveries completed before n leave reported. */
  ghost predicate Reported(s: seq<Sample>, target: real, n: nat, r: Report)
    requires n <= |s|
  {
    if n == 0 then r == NONE
    else if !Completes(s, target, n - 1) then Reported(s, target, n - 1, r)
    else
      exists before, now ::
        && Reported(s, target, n - 1, before) && Describes(s, target, n - 1, now)
        && r == Newer(before, now)
  }

  // ---- The scan

  /** No sample of the run up to k is strictly above the target. */
  ghost predicate Calm(s: seq<Sample>, target: real, k: nat)
    requires k <= |s|
  {
    forall i :: RunStart(s, target, k) <= i < k ==> !Above(s[i], target)
  }

  lemma {:induction false} NotCompleted(s: seq<Sample>, target: real, k: nat, r: Report)
    requires k < |s| && !Completes(s, target, k) && Reported(s, target, k, r)
    ensures Reported(s, target, k + 1, r)
  {
  }

  /** Passing a sample that is not strictly above in a calm run completes nothing. */
  lemma {:induction false} CalmStep(s: seq<Sample>, target: real, k: nat, r: Report)
    requires k < |s| && Calm(s, target, k) && !Above(s[k], target) && Reported(s, target, k, r)
    ensures Calm(s, target, k + 1) && Reported(s, target, k + 1, r)
  {
    hide Reported;
    NotCompleted(s, target, k, r);
  }

  /** Passing a sample that is not below completes nothing and stays in the run. */
  lemma {:induction false} RunStep(s: seq<Sample>, target: real, k: nat, r: Report)
    requires k < |s| && !Below(s[k], target) && Reported(s, target, k, r)
    ensures RunStart(s, target, k + 1) == RunStart(s, target, k) && Reported(s, target, k + 1, r)
  {
    hide Reported;
    NotCompleted(s, target, k, r);
  }

  /** The samples of a run ahead of its first strictly higher one do not matter for the maximum. */
  lemma PeakFromStart(s: seq<Sample>, target: real, start: nat, hi: nat, p: nat)
    requires start < hi <= |s| && Above(s[start], target) && Calm(s, target, start)
    requires RunStart(s, target, hi) == RunStart(s, target, start)
    requires IsPeak(s, target, start, hi, p)
    ensures IsPeak(s, target, RunStart(s, target, hi), hi, p)
  {
    forall i | RunStart(s, target, hi) <= i < start && Counts(s[i], target)
      ensures s[i].tempC < s[start].tempC && Counts(s[start], target)
    {
      assert !Above(s[i], target);
    }
  }

  /** One recovery found. */
  lemma RecoveryStep(s: seq<Sample>, target: real, start: nat, k: nat, p: nat, before: Report, now: Report)
    requires start < k < |s| && Above(s[start], target) && Calm(s, target, start)
    requires RunStart(s, target, k) == RunStart(s, target, start)
    requires Below(s[k], target) && IsPeak(s, target, start, k, p) && Reported(s, target, k, before)
    requires now == Report(Seconds(s[k].at - s[p].at), s[p].tempC, s[k].at)
    ensures Calm(s, target, k + 1)
    ensures Reported(s, target, k + 1, Newer(before, now))
  {
    PeakFromStart(s, target, start, k, p);
    assert Describes(s, target, k, now);
    assert Completes(s, target, k);
  }

  /** A run that ends without a maximum to report. */
  lemma NoPeakStep(s: seq<Sample>, target: real, start: nat, k: nat, r: Report)
    requires start <= k < |s| && Above(s[start], target) && Calm(s, target, start)
    requires RunStart(s, target, k) == RunStart(s, target, start)
    requires Below(s[k], target) && Reported(s, target, k, r)
    requires forall i :: start <= i < k ==> !Counts(s[i], target)
    ensures Calm(s, target, k + 1) && Reported(s, target, k + 1, r)
  {
    forall i | RunStart(s, target, k) <= i < k
      ensures !Counts(s[i], target)
    {
      if i < start {
        assert !Above(s[i], target);
        assert start < k ==> !Counts(s[start], target);
      }
    }
  }

  /** The middle loop of the scan: to the end of the run that sample start opens, and its last maximum. */
  method ScanRun(s: seq<Sample>, target: real, start: nat, ghost r: Report) returns (i: nat, peakIdx: int)
    requires start < |s| && Above(s[start], target) && Reported(s, target, start, r)
    ensures start < i <= |s| && (i < |s| ==> Below(s[i], target))
    ensures RunStart(s, target, i) == RunStart(s, target, start) && Reported(s, target, i, r)
    ensures forall j :: start <= j < i ==> !Below(s[j], target)
    ensures peakIdx < 0 ==> forall j :: start <= j < i ==> !Counts(s[j], target)
    ensures peakIdx >= 0 ==> IsPeak(s, target, start, i, peakIdx)
  {
    hide Reported;
    var maxT := -1.0;
    peakIdx := -1;
    i := start;
    while i < |s|
      invariant start <= i <= |s| && (i == start ==> start < |s|)
      invariant forall j :: start <= j < i ==> !Below(s[j], target)
      invariant RunStart(s, target, i) == RunStart(s, target, start) && Reported(s, target, i, r)
      invariant peakIdx < 0 ==> maxT == -1.0 && forall j :: start <= j < i ==> !Counts(s[j], target)
      invariant peakIdx >= 0 ==> IsPeak(s, target, start, i, peakIdx) && maxT == s[peakIdx].tempC >= -1.0
    {
      if !s[i].tempCPresent {
        RunStep(s, target, i, r);
        i := i + 1;
        continue;
      }
      if s[i].tempC >= target {
        RunStep(s, target, i, r);
        if s[i].tempC >= maxT {
          maxT := s[i].tempC;
          peakIdx := i;
        }
        i := i + 1;
      } else {
        break;
      }
    }
  }

  /** The inner loop: the first sample behind the maximum that is below the target is the one the run ended at. */
  method FindEnd(s: seq<Sample>, target: real, from: nat, ghost end: nat) returns (k: nat)
    requires from <= end <= |s| && (end < |s| ==> Below(s[end], target))
    requires forall j :: from <= j < end ==> !Below(s[j], target)
    ensures k == end
  {
    k := from;
    while k < |s|
      invariant from <= k <= end
    {
      if s[k].tempCPresent && s[k].tempC < target {
        return;
      }
      k := k + 1;
    }
  }

  /** Where the scan stands at sample i: everything before seen is accounted for; seen is one ahead of i when i
      is the sample that ended the last run. */
  ghost predicate Passed(s: seq<Sample>, target: real, i: nat, seen: nat, r: Report)
    requires i <= |s|
  {
    && (seen == i || (i < |s| && seen == i + 1 && Below(s[i], target)))
    && Reported(s, target, seen, r) && Calm(s, target, seen)
  }

  lemma Skip(s: seq<Sample>, target: real, i: nat, seen: nat, r: Report) returns (seen': nat)
    requires i < |s| && !Above(s[i], target) && Passed(s, target, i, seen, r)
    ensures Passed(s, target, i + 1, seen', r)
  {
    hide Reported, Calm;
    seen' := i + 1;
    if seen == i {
      CalmStep(s, target, i, r);
    }
  }

  ghost predicate Spiked(s: seq<Sample>, target: real, n: nat)
    requires n <= |s|
  {
    exists i :: 0 <= i < n && Above(s[i], target)
  }

  lemma SpikedStep(s: seq<Sample>, target: real, n: nat)
    requires n < |s|
    ensures Spiked(s, target, n + 1) <==> Spiked(s, target, n) || Above(s[n], target)
  {
  }

  /** What the recovery that ends a run adds, if it ends and has a maximum to report. */
  method CloseRun(s: seq<Sample>, target: real, ghost start: nat, i: nat, peakIdx: int, before: Report)
    returns (last: Report, ghost seen: nat)
    requires start < i <= |s| && Above(s[start], target) && Calm(s, target, start)
    requires RunStart(s, target, i) == RunStart(s, target, start)
    requires Reported(s, target, i, before) && (i < |s| ==> Below(s[i], target))
    requires forall j :: start <= j < i ==> !Below(s[j], target)
    requires peakIdx < 0 ==> forall j :: start <= j < i ==> !Counts(s[j], target)
    requires peakIdx >= 0 ==> IsPeak(s, target, start, i, peakIdx)
    ensures i < |s| ==> Passed(s, target, i, seen, last)
    ensures i == |s| ==> Reported(s, target, i, last)
  {
    hide Reported, Calm, RunStart;
    last, seen := before, i + 1;
    if peakIdx < 0 {
      if i < |s| {
        NoPeakStep(s, target, start, i, last);
      }
      return;
    }
    var k := FindEnd(s, target, peakIdx + 1, i);
    if k < |s| {
      var sec := Truncate(s[k].at - s[peakIdx].at);
      if sec < 0 {
        sec := 0;
      }
      RecoveryStep(s, target, start, k, peakIdx, last, Report(sec, s[peakIdx].tempC, s[k].at));
      if last.at == 0 || s[k].at > last.at {
        last := Report(sec, s[peakIdx].tempC, s[k].at);
      }
    }
  }

  /** scanRecoveries. */
  method ScanRecoveries(s: seq<Sample>, target: real) returns (last: Report, hadSpike: bool)
    ensures hadSpike <==> |s| >= 2 && exists i :: 0 <= i < |s| && s[i].tempCPresent && s[i].tempC > target
    ensures if |s| < 2 then last == NONE else Reported(s, target, |s|, last)
  {
    last, hadSpike := NONE, false;
    if |s| < 2 {
      return;
    }
    var i := 0;
    ghost var seen := 0;
    assert Passed(s, target, i, seen, last);
    while i < |s|
      invariant 0 <= i <= |s|
      invariant if i < |s| then Passed(s, target, i, seen, last) else Reported(s, target, i, last)
      invariant hadSpike <==> Spiked(s, target, i)
      decreases |s| - i
    {
      hide Reported, Calm, RunStart, Spiked;
      ghost var head := i;
      while i < |s| && (!s[i].tempCPresent || s[i].tempC <= target)
        invariant head <= i <= |s| && Passed(s, target, i, seen, last)
        invariant hadSpike <==> Spiked(s, target, i)
      {
        SpikedStep(s, target, i);
        seen := Skip(s, target, i, seen, last);
        i := i + 1;
      }
      if i >= |s| {
        break;
      }
      hadSpike := true;
      var start := i;
      var peakIdx;
      i, peakIdx := ScanRun(s, target, start, last);
      last, seen := CloseRun(s, target, start, i, peakIdx, last);
      SpikedBy(s, target, start, i);
    }
  }

  lemma SpikedBy(s: seq<Sample>, target: real, i: nat, n: nat)
    requires i < n <= |s| && Above(s[i], target)
    ensures Spiked(s, target, n)
  {
  }

  /** Duration.Seconds converted to an integer: rounded towards zero. */
  function Truncate(nanos: int): int {
    if nanos >= 0 then nanos / NANOS_PER_SECOND else -((-nanos) / NANOS_PER_SECOND)
  }

  // ---- What the scan finds, declaratively

  lemma LatestOf(s: seq<Sample>, target: real, n: nat, r: Report) returns (before: Report, now: Report)
    requires n < |s| && Completes(s, target, n) && Reported(s, target, n + 1, r)
    ensures Reported(s, target, n, before) && Describes(s, target, n, now) && r == Newer(before, now)
  {
    hide Completes, Describes;
    before, now :| Reported(s, target, n, before) && Describes(s, target, n, now) && r == Newer(before, now);
  }

  lemma {:induction false} ReportedBefore(s: seq<Sample>, target: real, k: nat, r: Report)
    requires k < |s| && !Completes(s, target, k) && Reported(s, target, k + 1, r)
    ensures Reported(s, target, k, r)
  {
  }

  lemma {:induction false} ReportedNone(s: seq<Sample>, target: real, r: Report)
    ensures Reported(s, target, 0, r) <==> r == NONE
  {
  }

  /** The report is determined by the samples, whatever the order of their times. */
  lemma {:induction false} ReportedUnique(s: seq<Sample>, target: real, n: nat, a: Report, b: Report)
    requires n <= |s| && Reported(s, target, n, a) && Reported(s, target, n, b)
    ensures a == b
    decreases n
  {
    hide Completes, Describes, Reported;
    if n == 0 {
      ReportedNone(s, target, a);
      ReportedNone(s, target, b);
    } else if !Completes(s, target, n - 1) {
      ReportedBefore(s, target, n - 1, a);
      ReportedBefore(s, target, n - 1, b);
      ReportedUnique(s, target, n - 1, a, b);
    } else {
      var a0, a1 := LatestOf(s, target, n - 1, a);
      var b0, b1 := LatestOf(s, target, n - 1, b);
      ReportedUnique(s, target, n - 1, a0, b0);
      DescribesUnique(s, target, n - 1, a1, b1);
    }
  }

  ghost predicate Increasing(s: seq<Sample>) {
    forall i, j :: 0 <= i < j < |s| ==> s[i].at < s[j].at
  }

  /** k is the last sample before n that completes a recovery. */
  ghost predicate IsLast(s: seq<Sample>, target: real, n: nat, k: nat)
    requires n <= |s|
  {
    k < n && Completes(s, target, k) && forall j :: k < j < n ==> !Completes(s, target, j)
  }

  /** With strictly increasing times the report is that of the last sample that completes a recovery, and there
      is none exactly when no sample does. */
  lemma {:induction false} ReportIsLast(s: seq<Sample>, target: real, n: nat, r: Report) returns (k: Option<nat>)
    requires n <= |s| && Increasing(s) && Reported(s, target, n, r)
    ensures k.None? ==> r == NONE && forall j :: 0 <= j < n ==> !Completes(s, target, j)
    ensures k.Some? ==> IsLast(s, target, n, k.value) && Describes(s, target, k.value, r)
    decreases n
  {
    hide Completes, Reported;
    if n == 0 {
      ReportedNone(s, target, r);
      k := None;
    } else if !Completes(s, target, n - 1) {
      ReportedBefore(s, target, n - 1, r);
      k := ReportIsLast(s, target, n - 1, r);
    } else {
      var before, now := LatestOf(s, target, n - 1, r);
      k := ReportIsLast(s, target, n - 1, before);
      assert k.Some? ==> before.at == s[k.value].at < s[n - 1].at == now.at;
      k := Some(n - 1);
    }
  }

  /** Any target the agent uses is above -1, and then a run with a sample strictly above it always has a maximum
      to report: a sample completes a recovery exactly when it is below the target and the run before it was
      somewhere strictly above. */
  lemma CompletesAboveMinusOne(s: seq<Sample>, target: real, k: nat)
    requires k < |s| && target > -1.0
    ensures Completes(s, target, k) <==>
            Below(s[k], target) && exists i :: RunStart(s, target, k) <= i < k && Above(s[i], target)
  {
    if i :| RunStart(s, target, k) <= i < k && Above(s[i], target) {
      assert Counts(s[i], target);
    }
  }

  // ---- The same in plain terms

  /** No temperature from i up to k is below the target. */
  ghost predicate NoneBelow(s: seq<Sample>, target: real, i: nat, k: nat)
    requires k <= |s|
  {
    forall j :: i <= j < k && s[j].tempCPresent ==> s[j].tempC >= target
  }

  lemma RunIs(s: seq<Sample>, target: real, i: nat, k: nat)
    requires i <= k <= |s|
    ensures RunStart(s, target, k) <= i <==> NoneBelow(s, target, i, k)
  {
  }

  /** A recovery is completed by a temperature below the target when an earlier one was above it and none in between
      was below; a run all of whose temperatures are under -1 degrees has no maximum and does not count. */
  lemma CompletesInPlainTerms(s: seq<Sample>, target: real, k: nat)
    requires k < |s|
    ensures Completes(s, target, k) <==>
            && s[k].tempCPresent && s[k].tempC < target
            && (exists i :: 0 <= i < k && s[i].tempCPresent && s[i].tempC > target && NoneBelow(s, target, i, k))
            && exists i :: 0 <= i < k && s[i].tempCPresent && s[i].tempC >= target && s[i].tempC >= -1.0
                           && NoneBelow(s, target, i, k)
  {
    var lo := RunStart(s, target, k);
    forall i | 0 <= i < k
      ensures lo <= i <==> NoneBelow(s, target, i, k)
    {
      RunIs(s, target, i, k);
    }
    if i :| 0 <= i < k && s[i].tempCPresent && s[i].tempC > target && NoneBelow(s, target, i, k) {
      assert Above(s[i], target);
    }
    if i :| 0 <= i < k && s[i].tempCPresent && s[i].tempC >= target && s[i].tempC >= -1.0
            && NoneBelow(s, target, i, k) {
      assert Counts(s[i], target);
    }
  }

  /** It is reported with the highest temperature since the last one below the target, the latest time it was reached,
      and the whole seconds from then on, none when the clock went backwards. */
  lemma DescribesInPlainTerms(s: seq<Sample>, target: real, k: nat, r: Report) returns (p: nat)
    requires k < |s| && Describes(s, target, k, r)
    ensures p < k && s[p].tempCPresent && s[p].tempC >= target && s[p].tempC >= -1.0 && NoneBelow(s, target, p, k)
    ensures forall j :: 0 <= j < k && s[j].tempCPresent && NoneBelow(s, target, j, k) ==>
              s[j].tempC <= s[p].tempC && (j > p ==> s[j].tempC < s[p].tempC)
    ensures r.at == s[k].at && r.peakC == s[p].tempC
    ensures s[k].at < s[p].at ==> r.sec == 0
    ensures s[k].at >= s[p].at ==> r.sec * 1_000_000_000 <= s[k].at - s[p].at < (r.sec + 1) * 1_000_000_000
  {
    var lo := RunStart(s, target, k);
    p :| IsPeak(s, target, lo, k, p) && r.peakC == s[p].tempC && r.sec == Seconds(s[k].at - s[p].at);
    hide RunStart;
    RunIs(s, target, p, k);
    forall j | 0 <= j < k && s[j].tempCPresent && NoneBelow(s, target, j, k)
      ensures lo <= j && s[j].tempC >= target
    {
      RunIs(s, target, j, k);
    }
    hide NoneBelow;
    assert forall j :: lo <= j < k && s[j].tempCPresent && s[j].tempC >= target && s[j].tempC >= -1.0 ==>
        Counts(s[j], target);
  }

  /** A recovery replaces what was reported before it, unless that has a time and its own is not later. */
  lemma LaterReplaces(s: seq<Sample>, target: real, n: nat, before: Report, now: Report)
    requires n < |s| && Completes(s, target, n) && Reported(s, target, n, before) && Describes(s, target, n, now)
    ensures Reported(s, target, n + 1, if before.at == 0 || now.at > before.at then now else before)
  {
    hide Completes, Describes;
    var r, k := Newer(before, now), n + 1;
    assert Reported(s, target, k - 1, before) && Describes(s, target, k - 1, now) && r == Newer(before, now);
    assert Reported(s, target, k, r);
  }

  function EffectiveThrottleLimit(limitC: real): real {
    if limitC <= 20.5 then 100.0 else limitC
  }

  function RecoveryTargetC(throttleLimit: real): (t: real)
    ensures t > 20.0 && t == if throttleLimit <= 20.5 then 60.0 else (20.0 + throttleLimit) / 2.0
  {
    20.0 + (EffectiveThrottleLimit(throttleLimit) - 20.0) * 0.5
  }

  // ---- The start of the current spike

  /** f is the first sample at or above the target since the last one below it. */
  ghost predicate Opens(s: seq<Sample>, target: real, n: nat, f: nat)
    requires n <= |s|
  {
    && RunStart(s, target, n) <= f < n && Hot(s[f], target)
    && forall i :: RunStart(s, target, n) <= i < f ==> !Hot(s[i], target)
  }

  /** findSpikeSegmentStart: when the last sample is at or above the target, the time of the first such sample
      since the last one below; otherwise the zero time. */
  method FindSpikeSegmentStart(s: seq<Sample>, target: real) returns (t: int)
    ensures IsStart(s, target, |s|, t)
    ensures if |s| == 0 || !s[|s| - 1].tempCPresent || s[|s| - 1].tempC < target then t == 0
            else exists f :: 0 <= f < |s| && t == s[f].at && StartsRun(s, target, f)
  {
    if |s| == 0 || Below(s[|s| - 1], target) || !s[|s| - 1].tempCPresent {
      return 0;
    }
    var n := |s|;
    for i := n - 1 downto 0
      invariant forall j :: i <= j < n ==> !Below(s[j], target)
    {
      if !s[i].tempCPresent {
        continue;
      }
      if s[i].tempC < target {
        t := FirstHotFrom(s, target, i + 1);
        FoundStartsRun(s, target, t);
        return;
      }
    }
    t := FirstHotFrom(s, target, 0);
    FoundStartsRun(s, target, t);
  }

  /** f is at or above the target, nothing behind it is below, and of those before it only what came before some
      temperature below the target is at or above it. */
  ghost predicate StartsRun(s: seq<Sample>, target: real, f: nat)
    requires f < |s|
  {
    && s[f].tempCPresent && s[f].tempC >= target && NoneBelow(s, target, f, |s|)
    && forall e :: 0 <= e < f && s[e].tempCPresent && s[e].tempC >= target ==> !NoneBelow(s, target, e, |s|)
  }

  lemma FoundStartsRun(s: seq<Sample>, target: real, t: int)
    requires Found(s, target, |s|, t)
    ensures exists f :: 0 <= f < |s| && t == s[f].at && StartsRun(s, target, f)
  {
    var f: nat :| Opens(s, target, |s|, f) && t == s[f].at;
    RunIs(s, target, f, |s|);
    forall e | 0 <= e < f && s[e].tempCPresent && s[e].tempC >= target
      ensures !NoneBelow(s, target, e, |s|)
    {
      RunIs(s, target, e, |s|);
      assert Hot(s[e], target);
    }
    assert StartsRun(s, target, f);
  }

  /** The search for the first sample at or above the target. */
  method FirstHotFrom(s: seq<Sample>, target: real, from: nat) returns (t: int)
    requires |s| > 0 && Hot(s[|s| - 1], target) && from == RunStart(s, target, |s|)
    ensures Found(s, target, |s|, t)
  {
    t := 0;
    for j := from to |s|
      invariant forall i :: from <= i < j ==> !Hot(s[i], target)
    {
      if s[j].tempCPresent && s[j].tempC >= target {
        assert Opens(s, target, |s|, j);
        return s[j].at;
      }
    }
  }

  ghost predicate Found(s: seq<Sample>, target: real, n: nat, t: int)
    requires n <= |s|
  {
    exists f: nat :: Opens(s, target, n, f) && t == s[f].at
  }

  ghost predicate IsStart(s: seq<Sample>, target: real, n: nat, t: int)
    requires n <= |s|
  {
    if n == 0 || !Hot(s[n - 1], target) then t == 0 else Found(s, target, n, t)
  }
}
