/** A drain that is cut short, and the log opened again by the next run (internal/buffer/wal.go). */
module Restart {
  import opened Seqs
  import opened Points
  import opened Codec
  import opened WalSpec
  import opened Wal

  /** The files left are the segments from the k-th on. */
  lemma LeftOver(segs: seq<FileName>, files: Files, k: nat, now: Files, found: seq<FileName>)
    requires k <= |segs| && Increasing(segs) && Increasing(found) && Tracked(segs, files)
    requires forall f :: f in files ==> f in segs
    requires now == files - Names(segs[..k]) && forall f :: f in found <==> f in now
    ensures found == segs[k..]
  {
    forall f
      ensures f in found <==> f in segs[k..]
    {
      assert segs == segs[..k] + segs[k..];
      if f in segs[k..] {
        var j :| 0 <= j < |segs[k..]| && segs[k..][j] == f;
        assert segs[k + j] == f;
        assert forall i :: 0 <= i < k ==> segs[i] != f;
      }
    }
    assert Increasing(segs[k..]);
    IncreasingIsUnique(found, segs[k..]);
  }

  /** What the two runs put out: the first the whole up to a point in the file it stopped in, the second the whole
      from the beginning of that file. */
  ghost predicate Overlapping(all: seq<seq<Point>>, parts: seq<seq<Point>>, k: nat, later: seq<seq<Point>>)
    requires k <= |all|
  {
    var whole, from, to := Flatten(all), |Flatten(all[..k])|, |Flatten(parts)|;
    from <= to <= |whole| && Flatten(parts) == whole[..to] && Flatten(later) == whole[from..]
  }

  lemma Repeated(all: seq<seq<Point>>, parts: seq<seq<Point>>, k: nat)
    requires k <= |all| && k <= |parts| <= k + 1 && parts[..k] == all[..k]
    requires |parts| > k ==> k < |all| && parts[k] <= all[k]
    ensures Overlapping(all, parts, k, all[k..])
  {
    hide Flatten;
    FlattenSplit(all, k);
    if |parts| > k {
      FlattenTakeNext(parts, k);
      assert parts[..k + 1] == parts;
      FlattenTakeNext(all, k);
      FlattenSplit(all, k + 1);
    } else {
      assert parts[..k] == parts;
    }
  }

  /** A valid log knows its history, and lists its segments in order of creation. */
  lemma KnowsHistory(w: WAL)
    requires w.Valid() && w.owned
    ensures Covers(w.created, w.disk.files) && Increasing(w.segments) && Tracked(w.segments, w.disk.files)
  {
  }

  lemma NoneSkipped(entries: seq<DirEntry>, files: Files)
    requires forall e :: e in entries ==> Adopted(e)
    ensures Outnumbered(entries, files)
  {
  }

  lemma AllFound(entries: seq<DirEntry>, files: Files, found: seq<FileName>)
    requires Listing(entries, files) && FoundIn(entries, found) && forall e :: e in entries ==> Adopted(e)
    ensures forall f :: f in found <==> f in files
  {
  }

  /** NewWAL on the directory of a log that is no longer used. */
  method Reopen(w: WAL) returns (next: WAL)
    requires w.Valid() && w.owned
    modifies w.disk`faults
    ensures fresh(next) && next.disk == w.disk && next.lib == w.lib && next.Sound() && next.active.None?
    ensures w.disk.faults >= old(w.disk.faults)
    ensures w.disk.faults == old(w.disk.faults) ==>
              next.Valid() && next.owned && forall f :: f in next.segments <==> f in w.disk.files
  {
    hide Bytes, Surviving, JustAbove, Sorted;
    KnowsHistory(w);
    hide Tracked, Numbered, Increasing, Covers, Writable;
    var entries := w.disk.ReadDir();
    next := new WAL.Open(w.lib, w.disk, w.maxTotal, entries, w.created);
    if w.disk.faults == old(w.disk.faults) {
      NoneSkipped(entries, w.disk.files);
      AllFound(entries, w.disk.files, next.segments);
    }
  }

  /** What is read of the files left. */
  lemma Resumed(lib: Lib, segs: seq<FileName>, files: Files, parts: seq<seq<Point>>, k: nat, now: Files,
                found: seq<FileName>)
    requires k <= |segs| && Increasing(segs) && Increasing(found) && Tracked(segs, files)
    requires forall f :: f in files ==> f in segs
    requires ReadOut(parts, Read(lib, segs, files), k) && Gone(segs, k, files, now) && |parts| <= k + 1
    requires |parts| > k ==> k < |segs| && parts[k] <= Read(lib, segs, files)[k]
    requires forall f :: f in found <==> f in now
    ensures var all := Read(lib, segs, files);
            Read(lib, found, now) == all[k..] && Overlapping(all, parts, k, all[k..])
  {
    hide Flatten, Scan, Overlapping;
    LeftOver(segs, files, k, now, found);
    assert forall f :: f in segs[k..] ==> f in segs;
    assert Agree(segs[k..], files, now);
    ReadAgree(lib, segs[k..], files, now);
    ReadDrop(lib, segs, files, k);
    Repeated(Read(lib, segs, files), parts, k);
  }

  /** How far a drain got without faults: all of k files, and less than all of the next when it was cancelled. */
  ghost predicate CutShort(parts: seq<seq<Point>>, all: seq<seq<Point>>, k: nat, cancelAt: Option<nat>) {
    && k <= |all| && k <= |parts| <= k + 1 && (|parts| == k <==> k == |all|) && parts[..k] == all[..k]
    && (k < |all| ==> cancelAt.Some? && parts[k] < all[k])
  }

  /** Drain and its goroutine, cancelled or not. */
  method DrainAll(w: WAL, cancelAt: Option<nat>) returns (segs: seq<FileName>, parts: seq<seq<Point>>, k: nat)
    requires w.Valid()
    modifies w, w.disk
    ensures w.Valid() && segs == old(w.segments)
    ensures Subseq(Flatten(parts), Flatten(old(w.Contents()).segs))
    ensures w.disk.faults >= old(w.disk.faults)
    ensures w.disk.faults == old(w.disk.faults) ==>
              var all := old(w.Contents()).segs;
              && |all| == |segs| && CutShort(parts, all, k, cancelAt)
              && Gone(segs, k, old(w.disk.files), w.disk.files)
  {
    hide Flatten, Subseq, Scan, Tracked, WAL.Valid, WAL.Contents, Read, Gone;
    ghost var files, all := w.disk.files, w.Contents().segs;
    segs := w.Drain();
    NotListed(w, segs);
    var end;
    parts, k, end := w.DrainFiles(segs, cancelAt);
  }

  lemma NotListed(w: WAL, segs: seq<FileName>)
    requires w.Valid() && w.Contents().segs == []
    ensures forall f :: f in segs ==> f !in w.segments
  {
    assert |w.segments| == |w.Contents().segs|;
  }

  lemma ReopenedContents(next: WAL, lib: Lib)
    requires next.Valid() && next.active.None? && next.lib == lib
    ensures next.Contents() == Log(Read(lib, next.segments, next.disk.files), false, true)
  {
  }

  lemma ContentsOf(w: WAL)
    requires w.Valid()
    ensures w.Contents().segs == Read(w.lib, w.segments, w.disk.files)
  {
  }

  /** A drain, cancelled or not, and the next run's NewWAL on the same directory. Without faults, and with no files
      but the log's own to begin with, the next run recovers exactly the files not removed, in their order: the two
      runs overlap in the points the first had taken from the file it stopped in, and in no others. */
  method DrainAndReopen(w: WAL, cancelAt: Option<nat>) returns (parts: seq<seq<Point>>, k: nat, next: WAL)
    requires w.Valid() && w.owned && forall f :: f in w.disk.files ==> f in w.segments
    modifies w, w.disk
    ensures fresh(next) && next.disk == w.disk && next.lib == w.lib && next.Sound()
    ensures Subseq(Flatten(parts), Flatten(old(w.Contents()).segs))
    ensures w.disk.faults == old(w.disk.faults) ==>
              var all := old(w.Contents()).segs;
              && CutShort(parts, all, k, cancelAt)
              && next.Valid() && next.Contents() == Log(all[k..], false, true)
              && Overlapping(all, parts, k, next.Contents().segs)
  {
    hide Flatten, Subseq, Scan, Tracked, WAL.Valid, WAL.Contents, WAL.Sound, Read, Gone, Increasing, Covers;
    hide Overlapping;
    KnowsHistory(w);
    ContentsOf(w);
    ghost var files, lib := w.disk.files, w.lib;
    var segs;
    segs, parts, k := DrainAll(w, cancelAt);
    next := Reopen(w);
    if w.disk.faults == old(w.disk.faults) {
      KnowsHistory(next);
      ReopenedContents(next, lib);
      Resumed(lib, segs, files, parts, k, w.disk.files, next.segments);
    }
  }
}
