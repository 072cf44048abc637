/** The segmented write-ahead log on disk (internal/buffer/wal.go, internal/buffer/segment.go). */
module Wal {
  import opened Seqs
  import opened Points
  import opened Codec
  import opened WalSpec

  /** A segment is rotated once it holds 10 MiB. */
  const SEGMENT_MAX := 10 * 1024 * 1024

  /** A name in the log directory, with the sequence number its text parses to, if any. */
  datatype FileName = FileName(text: string, number: Option<nat>)

  /** The name wal-%020d.seg that createSegment gives segment n. */
  function SegmentName(n: nat): FileName {
    FileName("wal-%020d.seg", Some(n))
  }

  /** The sort key: Sscanf leaves the zero value behind for a name it cannot parse. */
  function Key(f: FileName): nat {
    if f.number.Some? then f.number.value else 0
  }

  type Files = map<FileName, seq<byte>>

  /** The directory. Any call may fail; a failed call leaves the files alone and is counted. */
  class Disk {
    var files: Files
    ghost var faults: nat
    /** How many of the faults were reads and seeks that failed in a file being read. */
    ghost var misread: nat
    /** The files of which every byte written has been synced since, and those that are open for writing. */
    ghost var synced: set<FileName>
    ghost var handles: set<FileName>

    constructor (files: Files)
      ensures this.files == files && faults == misread == 0 && synced == files.Keys && handles == {}
    {
      this.files := files;
      faults, misread, synced, handles := 0, 0, files.Keys, {};
    }

    /** The faults other than those. */
    ghost function Grave(): int
      reads this
    {
      faults - misread
    }

    method Create(f: FileName) returns (ok: bool)
      modifies this`files, this`faults, this`handles
      ensures handles == old(handles) + if ok then {f} else {}
      ensures files == if ok && f !in old(files) then old(files)[f := []] else old(files)
      ensures faults == old(faults) + if ok then 0 else 1
    {
      ok := *;
      if ok && f !in files {
        files := files[f := []];
      }
      faults, handles := faults + if ok then 0 else 1, handles + if ok then {f} else {};
    }

    method Append(f: FileName, data: seq<byte>) returns (ok: bool)
      requires f in files
      modifies this`files, this`faults, this`synced
      ensures synced == old(synced) - {f}
      ensures files == if ok then old(files)[f := old(files[f]) + data] else old(files)
      ensures faults == old(faults) + if ok then 0 else 1
    {
      ok := *;
      if ok {
        files := files[f := files[f] + data];
      }
      faults, synced := faults + if ok then 0 else 1, synced - {f};
    }

    /** fsync: no effect on what the file holds, but then it survives a crash. */
    method Sync(f: FileName) returns (ok: bool)
      modifies this`faults, this`synced
      ensures synced == old(synced) + if ok then {f} else {}
      ensures faults == old(faults) + if ok then 0 else 1
    {
      ok := *;
      faults, synced := faults + if ok then 0 else 1, synced + if ok then {f} else {};
    }

    /** close: the handle is gone even when it fails. */
    method Close(f: FileName) returns (ok: bool)
      modifies this`faults, this`handles
      ensures handles == old(handles) - {f}
      ensures faults == old(faults) + if ok then 0 else 1
    {
      ok := *;
      faults, handles := faults + if ok then 0 else 1, handles - {f};
    }

    method Stat(f: FileName) returns (size: Option<nat>)
      requires f in files
      modifies this`faults
      ensures size.Some? ==> size.value == |files[f]|
      ensures faults == old(faults) + if size.Some? then 0 else 1
    {
      var ok: bool := *;
      size := if ok then Some(|files[f]|) else None;
      faults := faults + if ok then 0 else 1;
    }

    method Open(f: FileName) returns (data: Option<seq<byte>>)
      requires f in files
      modifies this`faults
      ensures data.Some? ==> data.value == files[f]
      ensures faults == old(faults) + if data.Some? then 0 else 1
    {
      var ok: bool := *;
      data := if ok then Some(files[f]) else None;
      faults := faults + if ok then 0 else 1;
    }

    method Remove(f: FileName) returns (ok: bool)
      modifies this`files, this`faults
      ensures files == if ok then old(files) - {f} else old(files)
      ensures faults == old(faults) + if ok then 0 else 1
    {
      ok := *;
      if ok {
        files := files - {f};
      }
      faults := faults + if ok then 0 else 1;
    }

    /** ReadDir, and Info for each entry: the segment files in any order; an entry that cannot be examined is
        counted. */
    method ReadDir() returns (entries: seq<DirEntry>)
      modifies this`faults
      ensures Listing(entries, files)
      ensures faults >= old(faults)
      ensures faults == old(faults) ==> forall e :: e in entries ==> Adopted(e)
    {
      entries := [];
      var todo := files.Keys;
      while todo != {}
        invariant todo <= files.Keys && faults >= old(faults)
        invariant forall e :: e in entries ==> e.name in files && e.name !in todo && !e.isDir && e.isSegment
        invariant forall e :: e in entries && e.size.Some? ==> e.size.value == |files[e.name]|
        invariant forall i, j :: 0 <= i < j < |entries| ==> entries[i].name != entries[j].name
        invariant forall f :: f in files && f !in todo ==> exists e :: e in entries && e.name == f
        invariant faults == old(faults) ==> forall e :: e in entries ==> e.size.Some?
        decreases |todo|
      {
        var f :| f in todo;
        var size := Stat(f);
        ghost var before := entries;
        entries := entries + [DirEntry(f, false, true, size)];
        todo := todo - {f};
        forall g | g in files && g !in todo
          ensures exists e :: e in entries && e.name == g
        {
          if g == f {
            assert entries[|before|] in entries;
          } else {
            var e :| e in before && e.name == g;
            assert e in entries;
          }
        }
      }
    }
  }

  /** Total size of the named files. */
  ghost function Bytes(names: seq<FileName>, files: Files): nat
    requires forall f :: f in names ==> f in files
  {
    if names == [] then 0 else |files[names[0]]| + Bytes(names[1..], files)
  }

  /** What readers of the named files get, file by file. */
  ghost function Read(lib: Lib, names: seq<FileName>, files: Files): (r: seq<seq<Point>>)
    requires forall f :: f in names ==> f in files
    ensures |r| == |names|
    ensures forall i :: 0 <= i < |names| ==> r[i] == Scan(lib, files[names[i]])
  {
    seq(|names|, i requires 0 <= i < |names| => Scan(lib, files[names[i]]))
  }

  ghost predicate Distinct(names: seq<FileName>) {
    forall i, j :: 0 <= i < j < |names| ==> names[i] != names[j]
  }

  ghost predicate Agree(names: seq<FileName>, a: Files, b: Files) {
    forall f :: f in names ==> f in a && f in b && a[f] == b[f]
  }

  lemma {:induction false} BytesAgree(names: seq<FileName>, a: Files, b: Files)
    requires Agree(names, a, b)
    ensures Bytes(names, a) == Bytes(names, b)
  {
    if names != [] {
      BytesAgree(names[1..], a, b);
    }
  }

  lemma {:induction false} BytesSnoc(names: seq<FileName>, f: FileName, files: Files)
    requires f in files && forall g :: g in names ==> g in files
    ensures Bytes(names + [f], files) == Bytes(names, files) + |files[f]|
  {
    if names == [] {
      assert names + [f] == [f];
    } else {
      BytesSnoc(names[1..], f, files);
      assert (names + [f])[1..] == names[1..] + [f];
    }
  }

  lemma ReadAgree(lib: Lib, names: seq<FileName>, a: Files, b: Files)
    requires Agree(names, a, b)
    ensures Read(lib, names, a) == Read(lib, names, b)
  {
  }

  lemma ReadDrop(lib: Lib, names: seq<FileName>, files: Files, k: nat)
    requires k <= |names| && forall f :: f in names ==> f in files
    ensures Read(lib, names[k..], files) == Read(lib, names, files)[k..]
  {
  }

  lemma ReadFresh(lib: Lib, names: seq<FileName>, files: Files, f: FileName)
    requires f !in files && forall g :: g in names ==> g in files
    ensures Read(lib, names + [f], files[f := []]) == Read(lib, names, files) + [[]]
  {
    assert Slots([]) == [];
  }

  /** A file that may be appended to: whole records to the end, or shut off by an oversized one. */
  ghost predicate Appendable(b: seq<byte>) {
    Clean(b) || Blocked(b)
  }

  /** One more frame in one file. */
  lemma GrowFile(lib: Lib, b: seq<byte>, p: Point, s: Slot)
    requires Appendable(b)
    requires |s.payload| < 0x8000_0000 && |s.sum| == 4 && Decode(lib, s) == Some(Stored(p))
    ensures Appendable(b + Frame(s))
    ensures Clean(b + Frame(s)) <==> Clean(b) && |s.payload| <= MAX_RECORD
    ensures Scan(lib, b + Frame(s)) ==
            Scan(lib, b) + (if |s.payload| <= MAX_RECORD && Clean(b) then [Stored(p)] else [])
  {
    if Clean(b) {
      if |s.payload| <= MAX_RECORD {
        AppendReadable(lib, b, s);
      } else {
        AppendOversized(lib, b, s, []);
        assert b + Frame(s) + [] == b + Frame(s);
        BlockedIsNotClean(b + Frame(s));
      }
    } else {
      AppendBlocked(lib, b, Frame(s));
      BlockedIsNotClean(b + Frame(s));
    }
  }

  lemma BlockedIsNotClean(b: seq<byte>)
    requires Blocked(b)
    ensures !Clean(b)
  {
  }

  /** New contents for the last of the named files. */
  lemma ReplaceLast(lib: Lib, names: seq<FileName>, files: Files, b: seq<byte>)
    requires names != [] && Distinct(names) && forall g :: g in names ==> g in files
    ensures var n := |names| - 1; var after := files[names[n] := b];
            && Bytes(names, after) == Bytes(names, files) - |files[names[n]]| + |b|
            && Read(lib, names, after) == Read(lib, names, files)[n := Scan(lib, b)]
  {
    var n := |names| - 1;
    var after := files[names[n] := b];
    var rest := names[..n];
    assert names == rest + [names[n]];
    BytesSnoc(rest, names[n], files);
    BytesSnoc(rest, names[n], after);
    BytesAgree(rest, files, after);
  }

  /** An open segment. A handle that failed to be replaced stays in place with its file closed. */
  datatype Active = Active(name: FileName, size: nat, open: bool)

  ghost predicate Increasing(names: seq<FileName>) {
    && (forall i :: 0 <= i < |names| ==> names[i].number.Some?)
    && (forall i, j :: 0 <= i < j < |names| ==> Key(names[i]) < Key(names[j]))
  }

  /** The names are distinct files on disk. */
  ghost predicate Tracked(segments: seq<FileName>, files: Files) {
    Distinct(segments) && forall f :: f in segments ==> f in files
  }

  /** No file has a number still to be given out, and numbers grow in order of creation. */
  ghost predicate Numbered(files: Files, nextSeq: nat, created: seq<FileName>, owned: bool) {
    && (forall f :: f in files && f.number.Some? ==> f.number.value < nextSeq)
    && Increasing(created)
    && (forall f :: f in created ==> Key(f) < nextSeq)
    && (owned ==> forall f :: f in files ==> f in created)
  }

  /** The segments are listed in order of creation. */
  ghost predicate Ordered(owned: bool, segments: seq<FileName>) {
    owned ==> Increasing(segments)
  }

  lemma OrderedTail(owned: bool, segments: seq<FileName>)
    requires Ordered(owned, segments) && segments != []
    ensures Ordered(owned, segments[1..])
  {
  }

  lemma OrderedSnoc(owned: bool, segments: seq<FileName>, n: nat)
    requires Ordered(owned, segments) && forall f :: f in segments && f.number.Some? ==> f.number.value < n
    ensures Ordered(owned, segments + [SegmentName(n)])
  {
    assert forall i :: 0 <= i < |segments| ==> segments[i] in segments;
  }

  lemma OrderedNone(owned: bool)
    ensures Ordered(owned, [])
  {
  }

  /** The active segment is the last one and fits its file. */
  ghost predicate Writable(segments: seq<FileName>, files: Files, a: Active, largest: nat) {
    && segments != [] && segments[|segments| - 1] == a.name && a.name in files
    && a.size == |files[a.name]| < SEGMENT_MAX + largest
    && (!a.open ==> a.size >= SEGMENT_MAX)
    && Appendable(files[a.name])
  }

  /** A record appended now would be read: no oversized one is in the way. */
  ghost predicate Clear(active: Option<Active>, files: Files) {
    active.Some? && active.value.name in files ==> Clean(files[active.value.name])
  }

  function Extended(files: Files, f: FileName, added: seq<byte>): (r: Files) {
    if f in files then files[f := files[f] + added] else files
  }

  /** The active segment, if there is one, holds what was added to the one before, or to an empty one if it is
      new. */
  ghost predicate Holds(was: Option<Active>, before: Files, now: Option<Active>, after: Files, rotated: bool,
                        added: seq<byte>)
  {
    now.Some? ==>
      var f := now.value.name;
      && f in after && (!rotated ==> was.Some? && was.value.name == f && f in before)
      && after[f] == (if rotated then [] else before[f]) + added
  }

  lemma ExtendedHolds(was: Option<Active>, before: Files, now: Option<Active>, after: Files, added: seq<byte>)
    requires was.Some? && now.Some? && now.value.name == was.value.name && was.value.name in before
    requires after == Extended(before, was.value.name, added)
    ensures Holds(was, before, now, after, false, added)
  {
  }

  lemma RotatedHolds(was: Option<Active>, before: Files, now: Option<Active>, after: Files, rotated: bool)
    requires rotated ==> now.Some? && now.value.name !in before && after == before[now.value.name := []]
    requires !rotated ==> after == before && (now.Some? ==> was.Some? && was.value.name == now.value.name)
    requires was.Some? ==> was.value.name in before
    ensures Holds(was, before, now, after, rotated, [])
  {
    assert now.Some? && !rotated ==> before[now.value.name] + [] == before[now.value.name];
  }

  /** Two stretches after one another, at most one of which rotates. */
  lemma HoldsThrough(was: Option<Active>, before: Files, mid: Option<Active>, files: Files, now: Option<Active>,
                     after: Files, rotated: bool, added: seq<byte>)
    requires || (Holds(was, before, mid, files, rotated, []) && Holds(mid, files, now, after, false, added))
             || (Holds(was, before, mid, files, false, []) && Holds(mid, files, now, after, rotated, added))
    ensures Holds(was, before, now, after, rotated, added) && (now.Some? ==> now.value.name in after)
  {
    if now.Some? && now.value.name in before {
      assert before[now.value.name] + [] == before[now.value.name];
    }
  }

  lemma ReadyIs(l: Log, k: nat, rotated: bool, now: Log)
    requires k <= |l.segs| - (if l.active then 1 else 0) && WellFormed(l)
    requires now == if rotated then Log(l.segs[k..] + [[]], true, true) else l.(segs := l.segs[k..])
    ensures now == Ready(l, k, rotated) && Possible(l, Outcome(k, rotated, false, false, true))
  {
    assert l.segs[k..] + [] == l.segs[k..];
  }

  /** None of the k segments pruned could have stayed: with the last of them the need is over the limit. */
  ghost predicate Needed(segments: seq<FileName>, files: Files, k: nat, drift: int, need: nat, limit: int)
    requires forall f :: f in segments ==> f in files
  {
    0 < k <= |segments| ==> Bytes(segments[k - 1..], files) + drift + need > limit
  }

  /** An active segment that is also the oldest is the only one; then, and when there is none at all, the log
      is no larger than one segment. */
  lemma AloneOrNot(segments: seq<FileName>, files: Files, active: Option<Active>, largest: nat)
    requires Tracked(segments, files) && (active.Some? ==> Writable(segments, files, active.value, largest))
    ensures active.Some? ==> segments != [] && (segments[0] == active.value.name <==> |segments| == 1)
    ensures segments == [] || (active.Some? && |segments| == 1) ==> Bytes(segments, files) < SEGMENT_MAX + largest
  {
    if |segments| == 1 {
      assert segments[1..] == [];
    }
  }

  lemma ActiveAgrees(segments: seq<FileName>, a: Files, b: Files, active: Option<Active>, largest: nat)
    requires Agree(segments, a, b) && (active.Some? ==> Writable(segments, b, active.value, largest))
    ensures active.Some? ==>
              active.value.name in a && active.value.name in b && a[active.value.name] == b[active.value.name]
  {
    if active.Some? {
      assert segments[|segments| - 1] in segments;
    }
  }

  lemma AgreeRefl(names: seq<FileName>, a: Files)
    requires Tracked(names, a)
    ensures Agree(names, a, a)
  {
  }

  lemma AgreeTail(names: seq<FileName>, a: Files, b: Files, c: Files)
    requires names != [] && Agree(names, a, b) && Agree(names[1..], b, c)
    ensures Agree(names[1..], a, c)
  {
  }

  /** What is left when the oldest file is dropped from the list, and possibly from the disk. */
  lemma Dropped(segments: seq<FileName>, before: Files, after: Files, nextSeq: nat, created: seq<FileName>, owned: bool)
    requires segments != [] && Tracked(segments, before) && Numbered(before, nextSeq, created, owned)
    requires after == before || after == before - {segments[0]}
    ensures Tracked(segments[1..], after) && Numbered(after, nextSeq, created, owned)
    ensures Agree(segments[1..], before, after)
    ensures Bytes(segments, before) == |before[segments[0]]| + Bytes(segments[1..], after)
  {
    BytesAgree(segments[1..], before, after);
  }

  /** An entry of a directory listing; size is None when it could not be examined, because the file has vanished
      or for any other reason. */
  datatype DirEntry = DirEntry(name: FileName, isDir: bool, isSegment: bool, size: Option<nat>)

  ghost predicate Adopted(e: DirEntry) {
    !e.isDir && e.isSegment && e.size.Some?
  }

  /** The segment is on disk, and yet the scan passes over it. */
  ghost predicate Skipped(e: DirEntry, files: Files) {
    !e.isDir && e.isSegment && e.size.None? && e.name in files
  }

  /** The listing names no file twice, and it names every file on disk. */
  ghost predicate Listing(entries: seq<DirEntry>, files: Files) {
    && (forall i, j :: 0 <= i < j < |entries| ==> entries[i].name != entries[j].name)
    && (forall e :: e in entries && Adopted(e) ==> e.name in files && e.size == Some(|files[e.name]|))
    && (forall f :: f in files ==> exists e :: e in entries && !e.isDir && e.isSegment && e.name == f)
  }

  /** The files whose entries could be examined. */
  ghost predicate FoundIn(entries: seq<DirEntry>, found: seq<FileName>) {
    forall f :: f in found <==> exists e :: e in entries && Adopted(e) && e.name == f
  }

  /** The least number above those of the named files. */
  ghost predicate JustAbove(names: seq<FileName>, next: nat) {
    && (forall f :: f in names && f.number.Some? ==> f.number.value < next)
    && (next == 0 || exists f :: f in names && f.number == Some(next - 1))
  }

  /** No file on disk has a number still to be given out. */
  ghost predicate AllBelow(files: Files, next: nat) {
    forall f :: f in files && f.number.Some? ==> f.number.value < next
  }

  /** For every segment passed over there is one with at least its number that is not. */
  ghost predicate Outnumbered(entries: seq<DirEntry>, files: Files) {
    forall e :: e in entries && Skipped(e, files) && e.name.number.Some? ==>
      exists a :: a in entries && Adopted(a) && a.name.number.Some? && a.name.number.value >= e.name.number.value
  }

  /** The scan loop of NewWAL: the segments that can be examined, in listing order, their total size, and the
      least number above all of theirs. A segment that cannot be examined is passed over before its number is
      looked at. So the number is above all those on disk exactly when each of those passed over is outnumbered by
      one that is not. */
  method ScanDirectory(entries: seq<DirEntry>, ghost files: Files)
    returns (found: seq<FileName>, total: int, next: nat)
    requires Listing(entries, files)
    ensures Tracked(found, files) && total == Bytes(found, files)
    ensures FoundIn(entries, found) && JustAbove(found, next)
    ensures forall f :: f in found <==>
              exists e :: e in entries && !e.isDir && e.isSegment && e.size.Some? && e.name == f
    ensures AllBelow(files, next) <==> Outnumbered(entries, files)
  {
    hide Bytes, Distinct, FoundIn, AllBelow, Outnumbered;
    found, total, next := [], 0, 0;
    TrackedNone(files);
    for i := 0 to |entries|
      invariant Tracked(found, files) && total == Bytes(found, files)
      invariant forall f :: f in found ==> exists j :: 0 <= j < i && Adopted(entries[j]) && entries[j].name == f
      invariant forall j :: 0 <= j < i && Adopted(entries[j]) ==> entries[j].name in found
      invariant JustAbove(found, next)
    {
      var e := entries[i];
      if e.isDir || !e.isSegment || e.size.None? {
        continue;
      }
      assert e in entries && Adopted(e);
      TrackedInsert(found, |found|, e.name, files);
      assert found[..|found|] + [e.name] + found[|found|..] == found + [e.name];
      ghost var before, low := found, next;
      found := found + [e.name];
      total := total + e.size.value;
      if e.name.number.Some? && e.name.number.value >= next {
        next := e.name.number.value + 1;
      }
      StillAbove(before, low, e.name, next);
    }
    FoundAll(entries, found);
    FoundAre(entries, found);
    BelowWhenOutnumbered(entries, files, found, next);
  }

  lemma FoundAre(entries: seq<DirEntry>, found: seq<FileName>)
    requires FoundIn(entries, found)
    ensures forall f :: f in found <==>
              exists e :: e in entries && !e.isDir && e.isSegment && e.size.Some? && e.name == f
  {
    assert forall e :: e in entries ==> (Adopted(e) <==> !e.isDir && e.isSegment && e.size.Some?);
  }

  lemma StillAbove(names: seq<FileName>, low: nat, f: FileName, next: nat)
    requires JustAbove(names, low)
    requires next == if f.number.Some? && f.number.value >= low then f.number.value + 1 else low
    ensures JustAbove(names + [f], next)
  {
    if next == low && low != 0 {
      var g :| g in names && g.number == Some(low - 1);
      assert g in names + [f];
    } else {
      assert f in names + [f];
    }
  }

  lemma FoundAll(entries: seq<DirEntry>, found: seq<FileName>)
    requires forall f :: f in found ==> exists j :: 0 <= j < |entries| && Adopted(entries[j]) && entries[j].name == f
    requires forall j :: 0 <= j < |entries| && Adopted(entries[j]) ==> entries[j].name in found
    ensures FoundIn(entries, found)
  {
    forall f | f in found
      ensures exists e :: e in entries && Adopted(e) && e.name == f
    {
      var j :| 0 <= j < |entries| && Adopted(entries[j]) && entries[j].name == f;
      assert entries[j] in entries;
    }
  }

  lemma BelowWhenOutnumbered(entries: seq<DirEntry>, files: Files, found: seq<FileName>, next: nat)
    requires Listing(entries, files) && FoundIn(entries, found) && JustAbove(found, next)
    ensures AllBelow(files, next) <==> Outnumbered(entries, files)
  {
    if Outnumbered(entries, files) {
      forall f | f in files && f.number.Some?
        ensures f.number.value < next
      {
        var e :| e in entries && !e.isDir && e.isSegment && e.name == f;
        assert Adopted(e) || Skipped(e, files);
        if Skipped(e, files) {
          var a :| a in entries && Adopted(a) && a.name.number.Some? && a.name.number.value >= f.number.value;
          assert a.name in found;
        }
      }
    }
    if AllBelow(files, next) {
      forall e | e in entries && Skipped(e, files) && e.name.number.Some?
        ensures exists a :: a in entries && Adopted(a) && a.name.number.Some?
                            && a.name.number.value >= e.name.number.value
      {
        var top :| top in found && top.number == Some(next - 1);
        var a :| a in entries && Adopted(a) && a.name == top;
      }
    }
  }

  /** A directory with one segment that cannot be examined: whatever it holds, it has the very number the reopened
      log gives to its first new segment. */
  lemma SkippedNumberIsReused(held: seq<byte>) returns (entries: seq<DirEntry>, files: Files)
    ensures files == map[SegmentName(0) := held] && Listing(entries, files)
    ensures forall found, next :: FoundIn(entries, found) && JustAbove(found, next) ==>
              next == 0 && !AllBelow(files, next) && !Outnumbered(entries, files)
  {
    var e := DirEntry(SegmentName(0), false, true, None);
    entries, files := [e], map[SegmentName(0) := held];
    assert e in entries && Skipped(e, files);
  }

  ghost predicate Sorted(names: seq<FileName>) {
    forall i, j :: 0 <= i < j < |names| ==> Key(names[i]) <= Key(names[j])
  }

  /** sort.Slice by parsed number. */
  method SortByKey(names: seq<FileName>, ghost files: Files) returns (sorted: seq<FileName>)
    requires Tracked(names, files)
    ensures Tracked(sorted, files) && Bytes(sorted, files) == Bytes(names, files)
    ensures forall f :: f in sorted <==> f in names
    ensures Sorted(sorted)
    ensures forall i, j :: 0 <= i < j < |sorted| && sorted[j].number.None? ==>
              sorted[i].number.None? || sorted[i].number == Some(0)
  {
    sorted := [];
    TrackedNone(files);
    for n := 0 to |names|
      invariant Tracked(sorted, files) && Bytes(sorted, files) == Bytes(names[..n], files)
      invariant forall f :: f in sorted <==> f in names[..n]
      invariant Sorted(sorted)
    {
      hide Bytes;
      var f := names[n];
      assert names[..n + 1] == names[..n] + [f];
      assert f !in names[..n];
      BytesSnoc(names[..n], f, files);
      sorted := InsertByKey(sorted, f, files);
    }
    assert names[..|names|] == names;
  }

  method InsertByKey(names: seq<FileName>, f: FileName, ghost files: Files) returns (r: seq<FileName>)
    requires Tracked(names, files) && f in files && f !in names && Sorted(names)
    ensures Tracked(r, files) && Bytes(r, files) == Bytes(names, files) + |files[f]|
    ensures forall g :: g in r <==> g in names || g == f
    ensures Sorted(r)
  {
    var at := 0;
    while at < |names| && Key(names[at]) <= Key(f)
      invariant at <= |names| && forall i :: 0 <= i < at ==> Key(names[i]) <= Key(f)
    {
      at := at + 1;
    }
    r := names[..at] + [f] + names[at..];
    TrackedInsert(names, at, f, files);
    SortedInsert(names, at, f);
  }

  lemma TrackedNone(files: Files)
    ensures Tracked([], files) && Bytes([], files) == 0
  {
  }

  ghost function Inserted(names: seq<FileName>, at: nat, f: FileName): (r: seq<FileName>)
    requires at <= |names|
    ensures |r| == |names| + 1 && r[at] == f
    ensures forall i :: 0 <= i < |r| && i != at ==> r[i] == names[if i < at then i else i - 1]
  {
    names[..at] + [f] + names[at..]
  }

  lemma TrackedInsert(names: seq<FileName>, at: nat, f: FileName, files: Files)
    requires Tracked(names, files) && at <= |names| && f in files && f !in names
    ensures var r := Inserted(names, at, f);
            && Tracked(r, files)
            && Bytes(r, files) == Bytes(names, files) + |files[f]|
            && forall g :: g in r <==> g in names || g == f
  {
    hide Bytes;
    BytesInsert(names, at, f, files);
    assert names == names[..at] + names[at..];
    var r := Inserted(names, at, f);
    forall i, j | 0 <= i < j < |r|
      ensures r[i] != r[j]
    {
      if i != at && j != at {
        assert r[i] == names[if i < at then i else i - 1] && r[j] == names[if j < at then j else j - 1];
      }
    }
  }

  lemma SortedInsert(names: seq<FileName>, at: nat, f: FileName)
    requires Sorted(names) && at <= |names|
    requires forall i :: 0 <= i < at ==> Key(names[i]) <= Key(f)
    requires at < |names| ==> Key(f) < Key(names[at])
    ensures Sorted(Inserted(names, at, f))
  {
    var r := Inserted(names, at, f);
    forall i, j | 0 <= i < j < |r|
      ensures Key(r[i]) <= Key(r[j])
    {
    }
  }

  lemma {:induction false} BytesInsert(names: seq<FileName>, at: nat, f: FileName, files: Files)
    requires at <= |names| && f in files && forall g :: g in names ==> g in files
    ensures Bytes(names[..at] + [f] + names[at..], files) == Bytes(names, files) + |files[f]|
  {
    var all := names[..at] + [f] + names[at..];
    if at == 0 {
      assert all[1..] == names;
    } else {
      BytesInsert(names[1..], at - 1, f, files);
      assert all[1..] == names[1..][..at - 1] + [f] + names[1..][at - 1..];
    }
  }

  ghost function Names(names: seq<FileName>): set<FileName> {
    set f | f in names
  }

  /** The files of a history that are present. */
  ghost function Surviving(history: seq<FileName>, present: set<FileName>): (r: seq<FileName>)
    ensures forall f :: f in r <==> f in history && f in present
  {
    if history == [] then []
    else (if history[0] in present then [history[0]] else []) + Surviving(history[1..], present)
  }

  lemma {:induction false} SurvivingIsIncreasing(history: seq<FileName>, present: set<FileName>)
    requires Increasing(history)
    ensures Increasing(Surviving(history, present))
  {
    if history != [] {
      SurvivingIsIncreasing(history[1..], present);
      var rest := Surviving(history[1..], present);
      forall f | f in rest
        ensures f.number.Some? && Key(history[0]) < Key(f)
      {
        var i :| 0 <= i < |history[1..]| && history[1..][i] == f;
        assert history[i + 1] == f;
      }
    }
  }

  /** Every file on disk is one of the history. */
  ghost predicate Covers(history: seq<FileName>, files: Files) {
    Increasing(history) && forall f :: f in files ==> f in history
  }

  /** Sorting what was found recovers the history without the files not found. */
  lemma Adopt(history: seq<FileName>, sorted: seq<FileName>, files: Files)
    requires Tracked(sorted, files) && Sorted(sorted) && Covers(history, files)
    ensures sorted == Surviving(history, Names(sorted)) && Increasing(sorted)
  {
    TrackedFiles(sorted, files);
    assert forall f :: f in Names(sorted) <==> f in sorted;
    assert Increasing(history) && forall f :: f in sorted ==> f in history;
    hide Increasing, Sorted, Surviving, Tracked, Names, Covers;
    SurvivingIsIncreasing(history, Names(sorted));
    DistinctKeys(history, sorted, files);
    IncreasingIsUnique(sorted, Surviving(history, Names(sorted)));
  }

  /** With all numbers on disk below the next one, the files on disk are a history to go on from. */
  lemma AdoptNumbers(history: seq<FileName>, files: Files, next: nat)
    requires AllBelow(files, next)
    ensures Covers(history, files) ==> Numbered(files, next, Surviving(history, files.Keys), true)
    ensures Numbered(files, next, [], false)
  {
    if Covers(history, files) {
      SurvivingIsIncreasing(history, files.Keys);
      hide Surviving;
      IncreasingNumbers(Surviving(history, files.Keys));
    }
  }

  lemma TrackedFiles(names: seq<FileName>, files: Files)
    requires Tracked(names, files)
    ensures forall f :: f in names ==> f in files
  {
  }

  lemma IncreasingNumbers(names: seq<FileName>)
    requires Increasing(names)
    ensures forall f :: f in names ==> f.number.Some?
  {
  }

  /** Files of one history have keys of their own. */
  lemma DistinctKeys(history: seq<FileName>, sorted: seq<FileName>, files: Files)
    requires Increasing(history) && Tracked(sorted, files) && forall f :: f in sorted ==> f in history
    requires Sorted(sorted)
    ensures Increasing(sorted)
  {
    forall i, j | 0 <= i < j < |sorted|
      ensures Key(sorted[i]) < Key(sorted[j])
    {
      assert sorted[i] in history && sorted[j] in history;
      var a :| 0 <= a < |history| && history[a] == sorted[i];
      var b :| 0 <= b < |history| && history[b] == sorted[j];
    }
    forall i | 0 <= i < |sorted|
      ensures sorted[i].number.Some?
    {
      assert sorted[i] in history;
    }
  }

  lemma FirstIsIn(a: seq<FileName>)
    ensures a != [] ==> a[0] in a
  {
  }

  /** There is only one way to list a set of files in increasing order. */
  lemma {:induction false} IncreasingIsUnique(a: seq<FileName>, b: seq<FileName>)
    requires Increasing(a) && Increasing(b) && forall f :: f in a <==> f in b
    ensures a == b
  {
    FirstIsIn(a);
    FirstIsIn(b);
    if a != [] {
      assert a[0] == b[0];
      forall f
        ensures f in a[1..] <==> f in b[1..]
      {
        assert f in a[1..] <==> f in a && f != a[0];
        assert f in b[1..] <==> f in b && f != b[0];
      }
      IncreasingIsUnique(a[1..], b[1..]);
      assert a == [a[0]] + a[1..] && b == [b[0]] + b[1..];
    }
  }

  lemma SameNames(found: seq<FileName>, sorted: seq<FileName>, entries: seq<DirEntry>, next: nat)
    requires forall f :: f in sorted <==> f in found
    requires FoundIn(entries, found) && JustAbove(found, next)
    ensures FoundIn(entries, sorted) && JustAbove(sorted, next)
  {
  }

  lemma NumberedIsBelow(files: Files, next: nat, created: seq<FileName>, owned: bool)
    ensures Numbered(files, next, created, owned) ==> AllBelow(files, next)
  {
  }

  class WAL {
    const lib: Lib
    const disk: Disk
    const maxTotal: int
    var segments: seq<FileName>
    var active: Option<Active>
    var totalSz: int
    var nextSeq: nat
    var pointsStored: nat
    /** Bytes by which totalSz exceeds the tracked files: a failed stat adds, a failed sync subtracts. */
    ghost var drift: int
    /** The longest record appended so far. */
    ghost var largest: nat
    /** Every segment ever created in the directory, in order of creation; when owned is set the directory
        holds no other files. */
    ghost var created: seq<FileName>
    ghost const owned: bool

    ghost predicate Valid()
      reads this, disk
    {
      && Tracked(segments, disk.files)
      && Numbered(disk.files, nextSeq, created, owned)
      && Ordered(owned, segments)
      && totalSz == Bytes(segments, disk.files) + drift
      && (active.Some? ==> Writable(segments, disk.files, active.value, largest))
    }

    /** The log as its readers see it. */
    ghost function Contents(): (l: Log)
      requires Valid()
      reads this, disk
      ensures WellFormed(l)
    {
      Log(Read(lib, segments, disk.files), active.Some?, Clear(active, disk.files))
    }

    /** What holds of the log even when a file it does not know of has a number still to be given out. */
    ghost predicate Sound()
      reads this, disk
    {
      && Tracked(segments, disk.files)
      && (forall f :: f in segments && f.number.Some? ==> f.number.value < nextSeq)
      && totalSz == Bytes(segments, disk.files) + drift
      && (active.Some? ==> Writable(segments, disk.files, active.value, largest))
    }

    lemma ValidIsSound()
      requires Valid()
      ensures Sound()
    {
    }

    /** NewWAL: adopt the segments found in the directory, in sequence order whatever the order of the
        listing. When history lists, in order of creation, at least the files that are there, the adopted
        list is the history without the files that are gone or passed over. No file on disk has a number still
        to be given out, as everything else relies on, exactly when those passed over are outnumbered. */
    constructor Open(lib: Lib, disk: Disk, maxTotal: int, entries: seq<DirEntry>, ghost history: seq<FileName>)
      requires Listing(entries, disk.files)
      ensures Sound() && this.lib == lib && this.disk == disk && this.maxTotal == maxTotal
      ensures Valid() <==> Outnumbered(entries, disk.files)
      ensures active.None? && totalSz == Bytes(segments, disk.files) && pointsStored == 0
      ensures FoundIn(entries, segments) && JustAbove(segments, nextSeq)
      ensures Sorted(segments)
      ensures Covers(history, disk.files) ==> segments == Surviving(history, Names(segments))
      ensures Covers(history, disk.files) && Valid() ==> owned && created == Surviving(history, disk.files.Keys)
    {
      hide Scan, Clean, Blocked, Appendable, Bytes, Writable, Surviving, Increasing, Sorted, Distinct, Numbered;
      hide Covers, AllBelow, Outnumbered, Names;
      var found, total, next := ScanDirectory(entries, disk.files);
      var sorted := SortByKey(found, disk.files);
      this.lib, this.disk, this.maxTotal := lib, disk, maxTotal;
      segments, active, totalSz, nextSeq, pointsStored := sorted, None, total, next, 0;
      drift, largest := 0, 0;
      owned := Covers(history, disk.files) && AllBelow(disk.files, next);
      created := if Covers(history, disk.files) && AllBelow(disk.files, next) then Surviving(history, disk.files.Keys)
                 else [];
      if Covers(history, disk.files) {
        Adopt(history, sorted, disk.files);
      }
      if AllBelow(disk.files, next) {
        AdoptNumbers(history, disk.files, next);
      }
      SameNames(found, sorted, entries, next);
      new;
      NumberedIsBelow(disk.files, next, created, owned);
    }

    /** One round of the pruning loop in Write. */
    method DropOldest()
      requires Valid() && segments != [] && (active.Some? ==> |segments| > 1)
      modifies this`segments, this`totalSz, this`drift, disk
      ensures Valid()
      ensures segments == old(segments)[1..]
      ensures Agree(segments, old(disk.files), disk.files) && disk.files.Keys <= old(disk.files.Keys)
      ensures disk.faults >= old(disk.faults)
      ensures disk.faults == old(disk.faults) ==>
                drift == old(drift) && disk.files == old(disk.files) - {old(segments)[0]}
    {
      hide Scan, Clean, Blocked, Appendable, Numbered, Bytes, Ordered;
      OrderedTail(owned, segments);
      var oldest := segments[0];
      ghost var names, before := segments, disk.files;
      segments := segments[1..];
      var size := disk.Stat(oldest);
      if size.Some? {
        totalSz := totalSz - size.value;
      } else {
        drift := drift + |before[oldest]|;
      }
      var removed := disk.Remove(oldest);
      Dropped(names, before, disk.files, nextSeq, created, owned);
    }

    /** The pruning loop of Write: an oldest stretch goes, the active segment never does, and no more goes
        than the limit asks for. */
    method Prune(need: nat) returns (ghost k: nat)
      requires Valid()
      modifies this`segments, this`totalSz, this`drift, disk
      ensures Valid()
      ensures k <= |old(segments)| - (if active.Some? then 1 else 0)
      ensures segments == old(segments)[k..]
      ensures Contents() == old(Contents()).(segs := old(Contents()).segs[k..])
      ensures Holds(old(active), old(disk.files), active, disk.files, false, [])
      ensures disk.faults >= old(disk.faults)
      ensures totalSz + need <= maxTotal || totalSz < SEGMENT_MAX + largest + drift
      ensures disk.faults == old(disk.faults) ==>
                && drift == old(drift)
                && Needed(old(segments), old(disk.files), k, old(drift), need, maxTotal)
    {
      hide Scan, Clean, Blocked, Appendable, Numbered, Tracked, Writable, Bytes, Agree, Read, Ordered;
      k := 0;
      ghost var names, files := segments, disk.files;
      AgreeRefl(names, files);
      AloneOrNot(names, files, active, largest);
      while totalSz + need > maxTotal && |segments| > 0
        invariant Valid()
        invariant k <= |names| - (if active.Some? then 1 else 0)
        invariant segments == names[k..]
        invariant Agree(segments, files, disk.files)
        invariant disk.faults >= old(disk.faults)
        invariant disk.faults == old(disk.faults) ==>
                    drift == old(drift) && (k > 0 ==> Bytes(names[k - 1..], files) + drift + need > maxTotal)
        decreases |segments|
      {
        AloneOrNot(segments, disk.files, active, largest);
        if active.Some? && segments[0] == active.value.name {
          break; // never prune the active segment
        }
        ghost var before := disk.files;
        BytesAgree(segments, files, before);
        DropOldest();
        AgreeTail(names[k..], files, before, disk.files);
        assert names[k..][1..] == names[k + 1..];
        k := k + 1;
      }
      AloneOrNot(segments, disk.files, active, largest);
      ActiveAgrees(segments, files, disk.files, active, largest);
      ReadAgree(lib, segments, files, disk.files);
      ReadDrop(lib, names, files, k);
    }

    /** The first half of rotateSegmentLocked: sync and close the segment being replaced. */
    method CloseActive() returns (ok: bool)
      requires Sound() && (active.Some? ==> active.value.size >= SEGMENT_MAX)
      modifies this`active, disk`faults, disk`synced, disk`handles
      ensures ok && old(active).Some? ==>
                old(active).value.name in disk.synced && disk.handles == old(disk.handles) - {old(active).value.name}
      ensures ok && old(active).None? ==> disk.handles == old(disk.handles)
      ensures old(active).Some? && (old(active).value.open <==> old(active).value.name in old(disk.handles)) ==>
                active.Some? && (active.value.open <==> active.value.name in disk.handles)
      ensures disk.synced >= old(disk.synced)
      ensures Sound() && (old(Valid()) ==> Valid() && Contents() == old(Contents()))
      ensures active.Some? == old(active).Some? && (active.Some? ==> active.value.name == old(active).value.name)
      ensures old(active).Some? && !old(active).value.open ==> !ok
      ensures disk.faults == old(disk.faults) ==> ok || (old(active).Some? && !old(active).value.open)
      ensures disk.faults >= old(disk.faults)
    {
      ok := true;
      if active.Some? {
        if !active.value.open {
          return false;
        }
        ok := disk.Sync(active.value.name);
        if ok {
          active := Some(active.value.(open := false));
          ok := disk.Close(active.value.name);
        }
      }
    }

    /** The second half: a number is used up even when the new file cannot be created. */
    method OpenNext() returns (ok: bool)
      requires Sound()
      modifies this`segments, this`active, this`nextSeq, this`drift, this`created, disk
      ensures ok ==>
        var f := SegmentName(old(nextSeq));
        && disk.files == (if f in old(disk.files) then old(disk.files) else old(disk.files)[f := []])
        && segments == old(segments) + [f] && active == Some(Active(f, 0, true))
        && Tracked(segments, disk.files) && drift == old(drift) - |disk.files[f]|
        && Read(lib, segments, disk.files)
           == Read(lib, old(segments), old(disk.files)) + [Scan(lib, disk.files[f])]
      ensures !ok ==> Sound() && disk.files == old(disk.files) && drift == old(drift)
      ensures !ok ==> segments == old(segments) && active == old(active)
      ensures old(Valid()) ==>
                && Valid() && drift == old(drift)
                && (ok ==> SegmentName(old(nextSeq)) !in old(disk.files))
                && Contents() == if ok then Log(old(Contents()).segs + [[]], true, true) else old(Contents())
      ensures disk.faults == old(disk.faults) + if ok then 0 else 1
      ensures disk.synced == old(disk.synced)
      ensures disk.handles == old(disk.handles) + if ok then {SegmentName(old(nextSeq))} else {}
    {
      hide Scan, Clean, Blocked, Appendable, Bytes, Read, Ordered;
      var f := SegmentName(nextSeq);
      nextSeq := nextSeq + 1;
      ghost var before := disk.files;
      ok := disk.Create(f);
      if ok {
        Taken(lib, segments, before, f);
        Renewed(lib, segments, before, f, nextSeq - 1, created, owned, largest);
        if Ordered(owned, segments) {
          OrderedSnoc(owned, segments, nextSeq - 1);
        }
        active := Some(Active(f, 0, true));
        segments := segments + [f];
        created := created + [f];
        drift := drift - |disk.files[f]|;
      }
    }

    /** rotateSegmentLocked. As long as no file has a number still to be given out, the file is new. When one has
        the very number, because it was passed over when the log was opened, that file is taken for the new
        segment: what it holds becomes part of the log, in last place, and is neither in the segment's size nor in
        totalSz. */
    method Rotate() returns (ok: bool)
      requires Sound() && (active.Some? ==> active.value.size >= SEGMENT_MAX)
      modifies this`segments, this`active, this`nextSeq, this`drift, this`created, disk
      ensures ok ==>
        var f := SegmentName(old(nextSeq));
        && disk.files == (if f in old(disk.files) then old(disk.files) else old(disk.files)[f := []])
        && segments == old(segments) + [f] && active == Some(Active(f, 0, true))
        && Tracked(segments, disk.files) && drift == old(drift) - |disk.files[f]|
        && Read(lib, segments, disk.files)
           == Read(lib, old(segments), old(disk.files)) + [Scan(lib, disk.files[f])]
      ensures !ok ==> Sound() && segments == old(segments) && disk.files == old(disk.files) && drift == old(drift)
      ensures old(Valid()) ==>
                && Valid() && drift == old(drift)
                && (ok ==> SegmentName(old(nextSeq)) !in old(disk.files))
                && Contents() == if ok then Log(old(Contents()).segs + [[]], true, true) else old(Contents())
      ensures !ok && active.Some? ==> old(active).Some? && active.value.name == old(active).value.name
      ensures ok && old(active).Some? ==> old(active).value.name in disk.synced
      ensures ok ==> disk.handles == old(disk.handles) - (if old(active).Some? then {old(active).value.name} else {})
                                     + {active.value.name}
      ensures old(active).Some? && !old(active).value.open ==> !ok
      ensures disk.faults == old(disk.faults) ==> ok || (old(active).Some? && !old(active).value.open)
      ensures disk.faults >= old(disk.faults)
    {
      hide Valid, Sound, Contents, Read, Scan, Tracked;
      ok := CloseActive();
      if ok {
        ok := OpenNext();
      }
    }

    /** The end of Write: append to the open segment, then sync. A record that is appended but not synced is
        reported as an error and left out of totalSz, yet stays in the file. */
    method AppendActive(ghost p: Point, ghost payload: seq<byte>, data: seq<byte>)
      returns (ok: bool, ghost appended: bool)
      requires Valid() && active.Some? && active.value.size < SEGMENT_MAX
      requires |payload| < 0x8000_0000 && lib.unmarshal(payload) == Some(PointToProto(p))
      requires data == Frame(Slot(payload, Be32(lib.crc(payload))))
      modifies this`active, this`totalSz, this`pointsStored, this`drift, this`largest, disk
      ensures Valid() && active.Some? && active.value.name == old(active).value.name
      ensures ok ==> appended && active.value.name in disk.synced
      ensures disk.files == Extended(old(disk.files), active.value.name, if appended then data else [])
      ensures Contents() == Written(old(Contents()), p, Outcome(0, false, appended, |payload| <= MAX_RECORD, !ok))
      ensures pointsStored == old(pointsStored) + if ok then 1 else 0
      ensures totalSz == old(totalSz) + if ok then |data| else 0
      ensures drift == old(drift) - if appended && !ok then |data| else 0
      ensures disk.faults == old(disk.faults) ==> ok
      ensures disk.faults >= old(disk.faults)
      ensures largest == Larger(old(largest), |data|)
    {
      hide Scan, Clean, Blocked, Appendable, Frame, Be32, Bytes, Written, Tracked, Numbered, Decode, Read, Ordered;
      ghost var l := Contents();
      WrittenInSteps(l, Outcome(0, false, false, false, true), p, false, |payload| <= MAX_RECORD, true);
      var f := active.value.name;
      ghost var before := disk.files;
      largest := Larger(largest, |data|);
      ok := disk.Append(f, data);
      appended := ok;
      if !ok {
        assert before[f] + [] == before[f];
        return;
      }
      Grown(lib, segments, before, p, payload, data, active.value, largest, nextSeq, created, owned);
      active := Some(active.value.(size := active.value.size + |data|));
      ok := disk.Sync(f);
      if !ok {
        drift := drift - |data|;
        return;
      }
      totalSz := totalSz + |data|;
      pointsStored := pointsStored + 1;
    }

    /** A new segment if there is none or the current one is full. */
    method OpenIfFull() returns (ok: bool, ghost rotated: bool)
      requires Valid()
      modifies this`segments, this`active, this`nextSeq, this`drift, this`created, disk
      ensures Valid() && drift == old(drift)
      ensures rotated <==> ok && (old(active).None? || old(active).value.size >= 10 * 1024 * 1024)
      ensures ok ==> active.Some? && active.value.size < SEGMENT_MAX
      ensures Contents() == if rotated then Log(old(Contents()).segs + [[]], true, true) else old(Contents())
      ensures Holds(old(active), old(disk.files), active, disk.files, rotated, [])
      ensures disk.faults >= old(disk.faults)
      ensures disk.faults == old(disk.faults) ==> (ok <==> (old(active).Some? ==> old(active).value.open))
    {
      OpenWhileWritable();
      hide Valid, Sound, Contents, Read, Tracked, Scan, Writable;
      ghost var files := disk.files;
      if active.Some? && active.value.size < SEGMENT_MAX {
        assert files[active.value.name] + [] == files[active.value.name];
        return true, false;
      }
      ValidIsSound();
      ghost var was := active;
      ok := Rotate();
      rotated := ok;
      RotatedHolds(was, files, active, disk.files, ok);
    }

    lemma OpenWhileWritable()
      requires Valid()
      ensures active.Some? ==>
                active.value.name in disk.files && (active.value.size < SEGMENT_MAX ==> active.value.open)
    {
    }

    /** The middle of Write: make room, and a new segment if there is none or the current one is full. */
    method MakeReady(need: nat) returns (ok: bool, ghost o: Outcome)
      requires Valid()
      modifies this`segments, this`active, this`totalSz, this`nextSeq, this`drift, this`created, disk
      ensures Valid()
      ensures !o.appended && o.failed == !ok && Possible(old(Contents()), o.(failed := true))
      ensures Contents() == Ready(old(Contents()), o.pruned, o.rotated)
      ensures ok ==> active.Some? && active.value.size < SEGMENT_MAX && active.value.name in disk.files
      ensures o.rotated <==> ok && (old(active).None? || old(active).value.size >= SEGMENT_MAX)
      ensures Holds(old(active), old(disk.files), active, disk.files, o.rotated, [])
      ensures ok ==> RoomFor(need, totalSz, maxTotal, largest, drift)
      ensures disk.faults >= old(disk.faults)
      ensures disk.faults == old(disk.faults) ==>
                && drift == old(drift)
                && (ok <==> (old(active).Some? ==> old(active).value.open))
                && Needed(old(segments), old(disk.files), o.pruned, old(drift), need, maxTotal)
    {
      ghost var l := Contents();
      assert l.active == active.Some? && |l.segs| == |segments|;
      hide Valid, Sound, Contents, Read, Tracked, Holds, RoomFor, Needed, Ready, Scan, Possible;
      ghost var was, before := active, disk.files;
      ghost var k := Prune(need);
      MakesRoom(need, totalSz, maxTotal, largest, drift);
      ghost var mid, files, rotated := active, disk.files, false;
      ok, rotated := OpenIfFull();
      o := Outcome(k, rotated, false, false, !ok);
      HoldsThrough(was, before, mid, files, active, disk.files, rotated, []);
      ReadyIs(l, k, rotated, Contents());
    }

    /** The append, where room has been made for it. */
    method AppendInRoom(ghost p: Point, ghost payload: seq<byte>, data: seq<byte>)
      returns (ok: bool, ghost appended: bool)
      requires Valid() && active.Some? && active.value.size < SEGMENT_MAX
      requires |payload| < 0x8000_0000 && lib.unmarshal(payload) == Some(PointToProto(p))
      requires data == Frame(Slot(payload, Be32(lib.crc(payload))))
      requires RoomFor(|data|, totalSz, maxTotal, largest, drift)
      modifies this`active, this`totalSz, this`pointsStored, this`drift, this`largest, disk
      ensures Valid() && pointsStored == old(pointsStored) + if ok then 1 else 0
      ensures ok ==> appended && drift == old(drift) && InBound(totalSz, maxTotal, largest, drift)
      ensures ok ==> active.Some? && active.value.name in disk.synced
      ensures Contents() == Written(old(Contents()), p, Outcome(0, false, appended, |payload| <= MAX_RECORD, !ok))
      ensures Holds(old(active), old(disk.files), active, disk.files, false, if appended then data else [])
      ensures disk.faults >= old(disk.faults) && (disk.faults == old(disk.faults) ==> ok)
    {
      OpenWhileWritable();
      hide Valid, Contents, Scan, Bytes, Decode, Written, Frame, Be32, Clean, Clear, Larger, Extended, RoomFor, InBound;
      Roomy(maxTotal, largest, |data|, drift, totalSz);
      ghost var was, files := active, disk.files;
      ok, appended := AppendActive(p, payload, data);
      ExtendedHolds(was, files, active, disk.files, if appended then data else []);
    }

    /** The rest of Write, once the record is encoded. */
    method Place(p: Point, ghost payload: seq<byte>, data: seq<byte>) returns (ok: bool, ghost o: Outcome)
      requires Valid()
      requires |payload| < 0x8000_0000 && lib.unmarshal(payload) == Some(PointToProto(p))
      requires data == Frame(Slot(payload, Be32(lib.crc(payload))))
      modifies this`segments, this`active, this`totalSz, this`nextSeq, this`pointsStored,
               this`drift, this`largest, this`created, disk
      ensures Valid() && pointsStored == old(pointsStored) + if ok then 1 else 0
      ensures o.rotated ==> old(active).None? || old(active).value.size >= SEGMENT_MAX
      ensures ok && (old(active).None? || old(active).value.size >= SEGMENT_MAX) ==> o.rotated
      ensures ok ==> active.Some? && active.value.name in disk.synced
      ensures o.failed == !ok && Possible(old(Contents()), o)
      ensures Contents() == Written(old(Contents()), p, o)
      ensures o.fits <==> |payload| <= MAX_RECORD
      ensures Holds(old(active), old(disk.files), active, disk.files, o.rotated, if o.appended then data else [])
      ensures ok ==> InBound(totalSz, maxTotal, largest, drift)
      ensures disk.faults == old(disk.faults) ==> drift == old(drift)
      ensures disk.faults == old(disk.faults) ==> (ok <==> (old(active).Some? ==> old(active).value.open))
      ensures disk.faults == old(disk.faults) && ok ==>
                Needed(old(segments), old(disk.files), o.pruned, old(drift), |data|, maxTotal)
    {
      ghost var l, fits := Contents(), |payload| <= MAX_RECORD;
      assert l.active == active.Some?;
      hide Valid, Contents, Scan, Bytes, Decode, Written, Ready, Possible, Frame, Be32, Clean, Clear;
      hide Holds, Extended, Needed, RoomFor, InBound;
      ghost var was, before := active, disk.files;
      ok, o := MakeReady(|data|);
      if !ok {
        WrittenInSteps(l, o, p, false, fits, true);
        o := o.(fits := fits);
        return;
      }
      ghost var mid, files, appended := active, disk.files, false;
      ok, appended := AppendInRoom(p, payload, data);
      HoldsThrough(was, before, mid, files, active, disk.files, o.rotated, if appended then data else []);
      WrittenInSteps(l, o, p, appended, fits, !ok);
      o := o.(appended := appended, fits := fits, failed := !ok);
    }

    /** Write, for a point and its marshalled form if it has one. A write that fails may leave its record in the
        file, where it is read unless it is over the limit or behind one that is. */
    method Write(p: Point, payload: Option<seq<byte>>) returns (ok: bool, ghost o: Outcome)
      requires Valid()
      requires payload.Some? ==>
                 |payload.value| < 0x8000_0000 && lib.unmarshal(payload.value) == Some(PointToProto(p))
      modifies this`segments, this`active, this`totalSz, this`nextSeq, this`pointsStored,
               this`drift, this`largest, this`created, disk
      ensures Valid() && pointsStored == old(pointsStored) + if ok then 1 else 0
      ensures o.rotated ==> old(active).None? || old(active).value.size >= SEGMENT_MAX
      ensures ok && (old(active).None? || old(active).value.size >= SEGMENT_MAX) ==> o.rotated
      ensures ok ==> active.Some? && active.value.name in disk.synced
      ensures o.failed == !ok && Possible(old(Contents()), o)
      ensures Contents() == Written(old(Contents()), p, o)
      ensures o.fits <==> payload.Some? && |payload.value| <= MAX_RECORD
      ensures o.appended ==> payload.Some?
      ensures Holds(old(active), old(disk.files), active, disk.files, o.rotated,
                    if o.appended then Frame(Slot(payload.value, Be32(lib.crc(payload.value)))) else [])
      ensures ok ==> InBound(totalSz, maxTotal, largest, drift)
      ensures disk.faults == old(disk.faults) ==>
                drift == old(drift) && (ok <==> payload.Some? && (old(active).Some? ==> old(active).value.open))
      ensures disk.faults == old(disk.faults) && ok ==>
                Needed(old(segments), old(disk.files), o.pruned, old(drift), 8 + |payload.value|, maxTotal)
    {
      ghost var l := Contents();
      hide Valid, Contents, Scan, Bytes, Decode, Written, Ready, Possible, Frame, Be32, InBound, Holds, Needed;
      ok, o := false, Outcome(0, false, false, payload.Some? && |payload.value| <= MAX_RECORD, true);
      NothingWritten(l, o, p);
      if payload.Some? {
        var buf := EncodeRecord(lib, payload.value);
        FrameIs(lib, payload.value);
        ok, o := Place(p, payload.value, buf[..]);
      }
    }

    /** HasData. An active segment always sits in the list, so the list alone decides. */
    method HasData() returns (r: bool)
      requires Valid()
      ensures r <==> Contents().segs != []
    {
      var activeHasData := active.Some? && active.value.size > 0;
      r := |segments| > 0 || activeHasData;
    }

    /** Drain, up to the start of its goroutine: the segment list changes hands and the log is empty. Errors of
        the final sync and close are only logged. */
    method Drain() returns (segs: seq<FileName>)
      requires Valid()
      modifies this`segments, this`active, this`totalSz, this`drift, disk`faults, disk`synced, disk`handles
      ensures Valid() && Contents() == Log([], false, true) && totalSz == drift == 0
      ensures old(active).Some? ==> disk.handles == old(disk.handles) - {old(active).value.name}
      ensures old(active).Some? && disk.faults == old(disk.faults) ==> old(active).value.name in disk.synced
      ensures disk.faults >= old(disk.faults)
      ensures segs == old(segments) && Tracked(segs, disk.files)
      ensures Read(lib, segs, disk.files) == old(Contents()).segs
    {
      if active.Some? {
        var synced := disk.Sync(active.value.name);
        var closed := disk.Close(active.value.name);
        active := None;
      }
      segs := segments;
      OrderedNone(owned);
      segments, totalSz, drift := [], 0, 0;
    }

    /** One round of the goroutine of Drain: read a segment out, then remove it. It is kept exactly when it could
        not be opened, when the position in it was lost, on a cancellation, or when it could not be removed; failed
        reads and seeks never keep it, although not all of it has come out. */
    method DrainOne(f: FileName, cancelAt: Option<nat>) returns (points: seq<Point>, end: DrainEnd)
      requires Valid() && f in disk.files && f !in segments
      modifies disk
      ensures Valid() && Contents() == old(Contents())
      ensures Subseq(points, Scan(lib, old(disk.files[f])))
      ensures disk.files == old(disk.files) || (end.Finished? && disk.files == old(disk.files) - {f})
      ensures end.Cancelled? ==> cancelAt == Some(|points|)
      ensures end.NotOpened? ==> points == []
      ensures disk.misread >= old(disk.misread) && disk.Grave() >= old(disk.Grave())
      ensures disk.Grave() == old(disk.Grave()) ==>
                if end.Cancelled? then disk.files == old(disk.files)
                else end.Finished? && disk.files == old(disk.files) - {f}
      ensures end.Finished? ==> (disk.files == old(disk.files) - {f} <==> disk.Grave() == old(disk.Grave()))
      ensures disk.faults == old(disk.faults) ==>
                && points <= Scan(lib, old(disk.files[f]))
                && (end.Finished? <==> points == Scan(lib, old(disk.files[f])))
    {
      hide Scan, Clean, Blocked, Appendable, Numbered, Bytes, Writable, Tracked, Read, Subseq, Ordered;
      points, end := [], NotOpened;
      var data := disk.Open(f);
      if data.None? {
        SubseqNil(Scan(lib, disk.files[f]));
        return;
      }
      ghost var rounds, faults, lost;
      points, end, rounds, faults, lost := DrainSegment(lib, data.value, cancelAt);
      disk.faults := disk.faults + faults + if lost then 1 else 0;
      disk.misread := disk.misread + faults;
      if !end.Finished? {
        return;
      }
      ghost var before := disk.files;
      var removed := disk.Remove(f);
      Released(lib, f, segments, before, disk.files, active, largest, nextSeq, created, owned);
    }

    /** One round of the goroutine's loop, in the middle of the whole: files and all are what the disk and the
        files held when it began, parts what has come out. */
    method DrainNext(segs: seq<FileName>, k: nat, cancelAt: Option<nat>, sent: nat, ghost files: Files,
                     ghost all: seq<seq<Point>>, ghost parts: seq<seq<Point>>)
      returns (points: seq<Point>, end: DrainEnd)
      requires Valid() && k < |segs| && Distinct(segs) && segs[k] !in segments
      requires (forall f :: f in segs ==> f in files) && all == Read(lib, segs, files)
      requires Agree(segs[k..], files, disk.files) && |parts| == k && Selections(parts, all)
      modifies disk
      ensures Valid() && Contents() == old(Contents())
      ensures Agree(segs[if end.Finished? then k + 1 else k..], files, disk.files)
      ensures Selections(parts + [points], all)
      ensures disk.misread >= old(disk.misread) && disk.Grave() >= old(disk.Grave())
      ensures disk.Grave() == old(disk.Grave()) && Gone(segs, k, files, old(disk.files)) ==>
                && Gone(segs, if end.Finished? then k + 1 else k, files, disk.files)
                && (end.Finished? || end.Cancelled?) && (cancelAt.None? ==> end.Finished?)
      ensures disk.faults == old(disk.faults) && ReadOut(parts, all, k) ==>
                && ReadOut(parts + [points], all, if end.Finished? then k + 1 else k)
                && (end.Cancelled? ==> points < all[k])
      ensures end.Cancelled? ==> cancelAt == Some(sent + |points|)
    {
      hide Valid, Contents, Scan, Subseq, Selections, Gone, ReadOut, Later;
      ghost var before := disk.files;
      NextToDrain(segs, k, files, before);
      points, end := DrainOne(segs[k], Later(cancelAt, sent));
      OneMoreSelection(parts, all, points);
      OneMoreReadOut(parts, all, points);
      OneMoreGone(segs, k, files, before, disk.files);
      if end.Finished? {
        AgreeWithout(segs, k, files, before, disk.files);
      }
    }

    /** The goroutine of Drain: file after file is read out and removed, until an error or a cancellation. From
        each file comes an in-order selection of what it holds; the file the drain stops at and those behind it
        are still there. When no faults but failed reads and seeks occur, every file is removed unless there is a
        cancellation. Without faults the selections are everything, up to where a cancellation stopped the last
        one. */
    method DrainFiles(segs: seq<FileName>, cancelAt: Option<nat>)
      returns (parts: seq<seq<Point>>, k: nat, end: DrainEnd)
      requires Valid() && Tracked(segs, disk.files) && forall f :: f in segs ==> f !in segments
      modifies disk
      ensures Valid() && Contents() == old(Contents())
      ensures k <= |segs| && (k == |segs| <==> end.Finished?) && |parts| == k + if end.Finished? then 0 else 1
      ensures Agree(segs[k..], old(disk.files), disk.files)
      ensures Selections(parts, old(Read(lib, segs, disk.files)))
      ensures Subseq(Flatten(parts), Flatten(old(Read(lib, segs, disk.files))))
      ensures disk.misread >= old(disk.misread) && disk.Grave() >= old(disk.Grave())
      ensures disk.Grave() == old(disk.Grave()) ==>
                && Gone(segs, k, old(disk.files), disk.files)
                && (end.Finished? || end.Cancelled?) && (cancelAt.None? ==> end.Finished?)
      ensures disk.faults == old(disk.faults) ==>
                && ReadOut(parts, old(Read(lib, segs, disk.files)), k)
                && (end.Cancelled? ==> parts[k] < old(Read(lib, segs, disk.files))[k])
      ensures end.Cancelled? ==> cancelAt == Some(|Flatten(parts)|)
    {
      hide Valid, Contents, Scan, Agree, Flatten, Read, Subseq, Selections, Gone, ReadOut, Later;
      assert Flatten<Point>([]) == [] by { NothingToFlatten(); }
      parts, k, end := [], 0, Finished;
      var sent: nat := 0;
      ghost var files, l := disk.files, Contents();
      ghost var all := Read(lib, segs, files);
      NothingDrained(segs, files, all);
      InFiles(segs, files);
      hide Tracked, Writable, Numbered, Bytes, Distinct;
      while k < |segs|
        invariant Valid() && Contents() == l
        invariant k <= |segs| && Agree(segs[k..], files, disk.files)
        invariant end.Finished? && |parts| == k && Selections(parts, all) && sent == |Flatten(parts)|
        invariant disk.misread >= old(disk.misread) && disk.Grave() >= old(disk.Grave())
        invariant disk.Grave() == old(disk.Grave()) ==> Gone(segs, k, files, disk.files)
        invariant disk.faults == old(disk.faults) ==> ReadOut(parts, all, k)
      {
        var points;
        points, end := DrainNext(segs, k, cancelAt, sent, files, all, parts);
        FlattenSnoc(parts, points);
        parts, sent := parts + [points], sent + |points|;
        if !end.Finished? {
          break;
        }
        k := k + 1;
      }
      SubseqOfSelections(parts, all);
    }
  }

  lemma NothingToFlatten()
    ensures Flatten<Point>([]) == []
  {
  }

  lemma NothingDrained(segs: seq<FileName>, files: Files, all: seq<seq<Point>>)
    requires Tracked(segs, files) && |all| == |segs|
    ensures Agree(segs[0..], files, files) && Selections([], all) && ReadOut([], all, 0) && Gone(segs, 0, files, files)
  {
    assert segs[0..] == segs && files - Names(segs[..0]) == files;
  }

  lemma InFiles(segs: seq<FileName>, files: Files)
    requires Tracked(segs, files)
    ensures Distinct(segs) && forall f :: f in segs ==> f in files
  {
  }

  /** The first k files have come out as they were. */
  ghost predicate ReadOut(parts: seq<seq<Point>>, all: seq<seq<Point>>, k: nat)
    requires k <= |all|
  {
    |parts| >= k && parts[..k] == all[..k]
  }

  /** The first k of the files are gone from the disk, and nothing else. */
  ghost predicate Gone(segs: seq<FileName>, k: nat, files: Files, now: Files)
    requires k <= |segs|
  {
    now == files - Names(segs[..k])
  }

  lemma OneMoreReadOut(parts: seq<seq<Point>>, all: seq<seq<Point>>, points: seq<Point>)
    requires |parts| < |all|
    ensures ReadOut(parts, all, |parts|) ==>
              && ReadOut(parts + [points], all, |parts|)
              && (points == all[|parts|] ==> ReadOut(parts + [points], all, |parts| + 1))
  {
    var k := |parts|;
    assert all[..k + 1] == all[..k] + [all[k]];
    assert (parts + [points])[..k] == parts[..k] && (parts + [points])[..k + 1] == parts + [points];
  }

  lemma OneMoreGone(segs: seq<FileName>, k: nat, files: Files, before: Files, now: Files)
    requires k < |segs|
    ensures Gone(segs, k, files, before) && now == before - {segs[k]} ==> Gone(segs, k + 1, files, now)
  {
    assert segs[..k + 1] == segs[..k] + [segs[k]];
    assert files - Names(segs[..k]) - {segs[k]} == files - Names(segs[..k + 1]);
  }

  /** A cancellation noticed at a send, seen from n sends later. */
  function Later(cancelAt: Option<nat>, n: nat): (r: Option<nat>)
    ensures cancelAt.None? ==> r.None?
    ensures r.Some? ==> cancelAt == Some(r.value + n)
  {
    if cancelAt.None? || cancelAt.value < n then None else Some(cancelAt.value - n)
  }

  /** From each of the first files an in-order selection of what it holds. */
  ghost predicate Selections(parts: seq<seq<Point>>, all: seq<seq<Point>>) {
    |parts| <= |all| && forall i :: 0 <= i < |parts| ==> Subseq(parts[i], all[i])
  }

  lemma OneMoreSelection(parts: seq<seq<Point>>, all: seq<seq<Point>>, points: seq<Point>)
    requires Selections(parts, all) && |parts| < |all| && Subseq(points, all[|parts|])
    ensures Selections(parts + [points], all)
  {
    hide Subseq;
  }

  lemma SubseqOfSelections(parts: seq<seq<Point>>, all: seq<seq<Point>>)
    requires Selections(parts, all)
    ensures Subseq(Flatten(parts), Flatten(all))
  {
    SubseqFlatten(parts, all);
  }

  lemma AgreeWithout(segs: seq<FileName>, k: nat, a: Files, b: Files, c: Files)
    requires k < |segs| && Distinct(segs) && Agree(segs[k..], a, b)
    requires c == b || c == b - {segs[k]}
    ensures Agree(segs[k + 1..], a, c)
  {
    assert forall i :: k < i < |segs| ==> segs[i] == segs[k..][i - k];
  }

  lemma NextToDrain(segs: seq<FileName>, k: nat, files: Files, now: Files)
    requires k < |segs| && Agree(segs[k..], files, now)
    ensures segs[k] in now && now[segs[k]] == files[segs[k]]
  {
    assert segs[k] == segs[k..][0];
  }

  /** Removing a drained file does not touch the log. */
  lemma Released(lib: Lib, f: FileName, segments: seq<FileName>, before: Files, after: Files,
                 active: Option<Active>, largest: nat, nextSeq: nat, created: seq<FileName>, owned: bool)
    requires f !in segments
    requires Tracked(segments, before) && Numbered(before, nextSeq, created, owned)
    requires active.Some? ==> Writable(segments, before, active.value, largest)
    requires after == before || after == before - {f}
    ensures Tracked(segments, after) && Numbered(after, nextSeq, created, owned)
    ensures active.Some? ==> Writable(segments, after, active.value, largest)
    ensures Bytes(segments, after) == Bytes(segments, before)
    ensures Read(lib, segments, after) == Read(lib, segments, before)
  {
    BytesAgree(segments, before, after);
    ReadAgree(lib, segments, before, after);
  }

  /** What appending one encoded record to the active file does to the log. */
  lemma Grown(lib: Lib, segments: seq<FileName>, before: Files, p: Point, payload: seq<byte>, data: seq<byte>,
              a: Active, largest: nat, nextSeq: nat, created: seq<FileName>, owned: bool)
    requires Numbered(before, nextSeq, created, owned)
    requires Tracked(segments, before) && Writable(segments, before, a, largest) && a.size < SEGMENT_MAX && a.open
    requires |data| <= largest
    requires |payload| < 0x8000_0000 && lib.unmarshal(payload) == Some(PointToProto(p))
    requires data == Frame(Slot(payload, Be32(lib.crc(payload))))
    ensures var after := before[a.name := before[a.name] + data];
            && Tracked(segments, after) && Numbered(after, nextSeq, created, owned)
            && Writable(segments, after, a.(size := a.size + |data|), largest)
            && Bytes(segments, after) == Bytes(segments, before) + |data|
            && var was, now := Log(Read(lib, segments, before), true, Clean(before[a.name])),
                               Log(Read(lib, segments, after), true, Clean(after[a.name]));
            && now == Written(was, p, Outcome(0, false, true, |payload| <= MAX_RECORD, false))
            && now == Written(was, p, Outcome(0, false, true, |payload| <= MAX_RECORD, true))
  {
    hide Scan, Clean, Blocked, Appendable, Frame, Be32, Decode, Bytes;
    EncodeThenDecode(lib, payload, p);
    GrowFile(lib, before[a.name], p, Slot(payload, Be32(lib.crc(payload))));
    ReplaceLast(lib, segments, before, before[a.name] + data);
    var r := Read(lib, segments, before);
    var n := |r| - 1;
    assert r[0..] + [] == r;
    assert r[n] + [] == r[n] && r[n := r[n]] == r;
  }

  ghost predicate RoomFor(need: nat, total: int, maxTotal: int, largest: nat, drift: int) {
    total + need <= Larger(maxTotal, SEGMENT_MAX + largest + drift + need)
  }

  lemma MakesRoom(need: nat, total: int, maxTotal: int, largest: nat, drift: int)
    requires total + need <= maxTotal || total < SEGMENT_MAX + largest + drift
    ensures RoomFor(need, total, maxTotal, largest, drift)
  {
  }

  /** The size bound: the limit, or, when one segment alone is over it, that segment and the record behind it. */
  ghost predicate InBound(total: int, maxTotal: int, largest: nat, drift: int) {
    total <= Larger(maxTotal, SEGMENT_MAX + 2 * largest + drift)
  }

  /** The room made is enough for the size bound after the append. */
  lemma Roomy(maxTotal: int, largest: nat, need: nat, drift: int, total: int)
    requires RoomFor(need, total, maxTotal, largest, drift)
    ensures InBound(total + need, maxTotal, Larger(largest, need), drift)
  {
  }

  lemma FrameIs(lib: Lib, payload: seq<byte>)
    requires |payload| < 0x8000_0000
    ensures Frame(Slot(payload, Be32(lib.crc(payload)))) ==
            Be32(|payload| % 0x1_0000_0000) + payload + Be32(lib.crc(payload))
    ensures |Frame(Slot(payload, Be32(lib.crc(payload))))| == 8 + |payload|
  {
    hide Be32;
    assert |payload| % 0x1_0000_0000 == |payload|;
  }

  /** A file taken for a new segment, whether or not it was there before. */
  lemma Taken(lib: Lib, segments: seq<FileName>, before: Files, f: FileName)
    requires Tracked(segments, before) && f !in segments
    ensures var after := if f in before then before else before[f := []];
            && Tracked(segments + [f], after)
            && Read(lib, segments + [f], after) == Read(lib, segments, before) + [Scan(lib, after[f])]
  {
    hide Scan;
    var after := if f in before then before else before[f := []];
    ReadAgree(lib, segments, before, after);
  }

  /** As long as no file has a number still to be given out, the one taken is new and everything stays in order. */
  lemma Renewed(lib: Lib, segments: seq<FileName>, before: Files, f: FileName, n: nat, created: seq<FileName>,
                owned: bool, largest: nat)
    requires Tracked(segments, before) && f == SegmentName(n)
    ensures Numbered(before, n, created, owned) ==>
              var after := before[f := []];
              && f !in before
              && Tracked(segments + [f], after)
              && Numbered(after, n + 1, created + [f], owned)
              && Bytes(segments + [f], after) == Bytes(segments, before)
              && Writable(segments + [f], after, Active(f, 0, true), largest) && Clean([])
              && Read(lib, segments + [f], after) == Read(lib, segments, before) + [[]]
  {
    hide Tracked, Numbered, Writable, Bytes, Read;
    if Numbered(before, n, created, owned) {
      Fresh(segments, before, f, n, created, owned, largest);
      TrackedFiles(segments, before);
      ReadFresh(lib, segments, before, f);
    }
  }

  /** A newly created segment is in order. */
  lemma Fresh(segments: seq<FileName>, before: Files, f: FileName, n: nat, created: seq<FileName>, owned: bool,
              largest: nat)
    requires Tracked(segments, before) && Numbered(before, n, created, owned) && f == SegmentName(n)
    ensures var after := before[f := []];
            && f !in before
            && Tracked(segments + [f], after)
            && Numbered(after, n + 1, created + [f], owned)
            && Bytes(segments + [f], after) == Bytes(segments, before)
            && Writable(segments + [f], after, Active(f, 0, true), largest)
  {
    var after := before[f := []];
    assert f !in before;
    BytesAgree(segments, before, after);
    BytesSnoc(segments, f, after);
    assert Slots([]) == [];
  }
}
