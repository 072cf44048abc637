/** The start of the current spike, kept up to date sample by sample, against the search over the whole window
    (internal/health/window.go). */
module SpikeStart {
  import opened Recovery

  /** updateSpikeSegmentStart after n samples: cur is the start kept so far. */
  function Updated(cur: int, s: seq<Sample>, n: nat, target: real): int
    requires n <= |s|
  {
    if n == 0 then 0
    else
      var last := s[n - 1];
      if !last.tempCPresent then cur
      else if last.tempC > target then
        if n == 1 then last.at
        else
          var prev := s[n - 2];
          if !prev.tempCPresent || prev.tempC < target then last.at else cur
      else 0
  }

  /** The start kept after each of the first n samples has been appended and looked at. */
  function Kept(s: seq<Sample>, target: real, n: nat): int
    requires n <= |s|
  {
    if n == 0 then 0 else Updated(Kept(s, target, n - 1), s, n, target)
  }

  lemma {:induction false} SameRun(s: seq<Sample>, target: real, n: nat, k: nat)
    requires k <= n <= |s|
    ensures RunStart(s[..n], target, k) == RunStart(s, target, k)
    decreases k
  {
    if k > 0 {
      SameRun(s, target, n, k - 1);
    }
  }

  /** The search over the first n samples does not see the others. */
  lemma SearchOfPrefix(s: seq<Sample>, target: real, n: nat, t: int)
    requires n <= |s|
    ensures IsStart(s[..n], target, n, t) <==> IsStart(s, target, n, t)
  {
    SameRun(s, target, n, n);
    var p := s[..n];
    assert forall f: nat :: Opens(p, target, n, f) <==> Opens(s, target, n, f);
    if f: nat :| Opens(p, target, n, f) && t == p[f].at {
      assert Opens(s, target, n, f) && t == s[f].at;
    }
    if f: nat :| Opens(s, target, n, f) && t == s[f].at {
      assert Opens(p, target, n, f) && t == p[f].at;
    }
  }

  lemma FoundLater(s: seq<Sample>, target: real, n: nat, t: int)
    requires n < |s| && !Below(s[n], target) && Found(s, target, n, t)
    ensures Found(s, target, n + 1, t)
  {
    var f: nat :| Opens(s, target, n, f) && t == s[f].at;
    assert Opens(s, target, n + 1, f);
  }

  lemma FoundHere(s: seq<Sample>, target: real, n: nat)
    requires n < |s| && Hot(s[n], target)
    requires forall i :: RunStart(s, target, n) <= i < n ==> !Hot(s[i], target)
    ensures Found(s, target, n + 1, s[n].at)
  {
    assert Opens(s, target, n + 1, n);
  }

  /** No sample meets the target exactly, and no gap in the temperatures directly follows a sample above it. */
  ghost predicate Plain(s: seq<Sample>, target: real) {
    forall i :: 0 <= i < |s| ==>
      if s[i].tempCPresent then s[i].tempC != target else i > 0 ==> !Above(s[i - 1], target)
  }

  lemma {:induction false} GapIsCold(s: seq<Sample>, target: real, n: nat)
    requires n <= |s| && Plain(s, target) && (n > 0 ==> !s[n - 1].tempCPresent)
    ensures forall i :: RunStart(s, target, n) <= i < n ==> !Hot(s[i], target)
    decreases n
  {
    if n > 1 {
      assert RunStart(s, target, n) == RunStart(s, target, n - 1);
      if s[n - 2].tempCPresent {
        assert !Above(s[n - 2], target) && s[n - 2].tempC != target;
      } else {
        GapIsCold(s, target, n - 1);
      }
    }
  }

  lemma {:induction false} KeptWhenPlain(s: seq<Sample>, target: real, n: nat)
    requires n <= |s| && Plain(s, target)
    ensures IsStart(s, target, n, Kept(s, target, n))
    decreases n
  {
    if n > 0 {
      var k := n - 1;
      KeptWhenPlain(s, target, k);
      if Above(s[k], target) {
        if k == 0 || !s[k - 1].tempCPresent {
          GapIsCold(s, target, k);
          FoundHere(s, target, k);
        } else if Below(s[k - 1], target) {
          FoundHere(s, target, k);
        } else {
          FoundLater(s, target, k, Kept(s, target, k));
        }
      }
    }
  }

  ghost predicate Timed(s: seq<Sample>) {
    forall i :: 0 <= i < |s| ==> s[i].at != 0
  }

  lemma NotKept(s: seq<Sample>, target: real, i: nat) returns (n: nat)
    requires i < |s| && Timed(s)
    requires if s[i].tempCPresent then s[i].tempC == target else i > 0 && Above(s[i - 1], target)
    ensures n <= |s| && !IsStart(s, target, n, Kept(s, target, n))
  {
    if s[i].tempCPresent || !IsStart(s, target, i, Kept(s, target, i)) {
      n := if s[i].tempCPresent then i + 1 else i;
    } else {
      n := i + 1;
    }
  }

  /** After every append the kept start is what the search over the samples so far finds, exactly when no sample
      meets the target and no gap directly follows a sample above it. */
  lemma KeptExactlyWhen(s: seq<Sample>, target: real)
    requires Timed(s)
    ensures Plain(s, target) <==>
            forall n :: 0 <= n <= |s| ==> IsStart(s[..n], target, n, Kept(s, target, n))
  {
    forall n | 0 <= n <= |s|
      ensures IsStart(s[..n], target, n, Kept(s, target, n)) <==> IsStart(s, target, n, Kept(s, target, n))
    {
      SearchOfPrefix(s, target, n, Kept(s, target, n));
    }
    if Plain(s, target) {
      forall n | 0 <= n <= |s|
        ensures IsStart(s, target, n, Kept(s, target, n))
      {
        KeptWhenPlain(s, target, n);
      }
    } else {
      var i :| 0 <= i < |s| &&
               !if s[i].tempCPresent then s[i].tempC != target else i > 0 ==> !Above(s[i - 1], target);
      var n := NotKept(s, target, i);
      assert 0 <= n <= |s|;
    }
  }

  // ---- What computeThermalRecovery makes of it

  /** Sample j takes the temperature back above the target right after a gap in a run that was already there. */
  ghost predicate Resumes(s: seq<Sample>, target: real, j: nat)
    requires j < |s|
  {
    && j > 0 && Above(s[j], target) && !s[j - 1].tempCPresent
    && exists q :: RunStart(s, target, j) <= q < j && Hot(s[q], target)
  }

  lemma {:induction false} KeptOfRun(s: seq<Sample>, target: real, n: nat)
    requires n <= |s| && forall j :: 0 <= j < n ==> !Resumes(s, target, j)
    ensures Kept(s, target, n) == 0 || Found(s, target, n, Kept(s, target, n))
    decreases n
  {
    if n > 0 {
      var k := n - 1;
      KeptOfRun(s, target, k);
      assert !Resumes(s, target, k);
      if s[k].tempCPresent && s[k].tempC > target && (k == 0 || !s[k - 1].tempCPresent || s[k - 1].tempC < target) {
        FoundHere(s, target, k);
      } else if !Below(s[k], target) && Kept(s, target, k) != 0 {
        FoundLater(s, target, k, Kept(s, target, k));
      }
    }
  }

  /** What an active spike is measured from: the kept start, or the one searched for when none is kept. */
  ghost predicate Shown(s: seq<Sample>, target: real, n: nat, t: int)
    requires n <= |s|
  {
    if Kept(s, target, n) == 0 then IsStart(s, target, n, t) else t == Kept(s, target, n)
  }

  /** While the last sample is above the target, the spike shown always began where the search says, exactly when
      no run above the target resumes after a gap. Then, and only then, gaps and exact hits do no harm. */
  lemma ShownExactlyWhen(s: seq<Sample>, target: real)
    requires Timed(s) && Increasing(s)
    ensures (forall j :: 0 <= j < |s| ==> !Resumes(s, target, j)) <==>
            forall n, t ::
              0 < n <= |s| && Above(s[n - 1], target) && Shown(s, target, n, t) ==> IsStart(s, target, n, t)
  {
    if forall j :: 0 <= j < |s| ==> !Resumes(s, target, j) {
      forall n, t | 0 < n <= |s| && Above(s[n - 1], target) && Shown(s, target, n, t)
        ensures IsStart(s, target, n, t)
      {
        KeptOfRun(s, target, n);
      }
    } else {
      var j :| 0 <= j < |s| && Resumes(s, target, j);
      ResumedStart(s, target, j);
      assert Shown(s, target, j + 1, s[j].at);
    }
  }

  lemma ResumedStart(s: seq<Sample>, target: real, j: nat)
    requires Timed(s) && Increasing(s) && j < |s| && Resumes(s, target, j)
    ensures Kept(s, target, j + 1) == s[j].at != 0 && !IsStart(s, target, j + 1, s[j].at)
  {
    if f: nat :| Opens(s, target, j + 1, f) && s[f].at == s[j].at {
      assert false;
    }
  }
}
