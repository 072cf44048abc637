/** The byte format of the write-ahead log (internal/buffer/wal.go): length-prefixed, checksummed records,
    and the reader that walks a segment file. */
module Codec {
  import opened Seqs
  import opened Points

  type uint32 = x: int | 0 <= x < 0x1_0000_0000

  /** The largest record the reader accepts, 10 MiB. */
  const MAX_RECORD := 10 * 1024 * 1024

  /** The two library functions the format rests on: the CRC-32 and protobuf decoding. */
  datatype Lib = Lib(crc: seq<byte> -> uint32, unmarshal: seq<byte> -> Option<Proto>)

  /** Big-endian, most significant byte first; dividing by 256 is a shift by eight bits. */
  function Be32(v: uint32): (b: seq<byte>)
    ensures |b| == 4
  {
    [v / 256 / 256 / 256, v / 256 / 256 % 256, v / 256 % 256, v % 256]
  }

  function FromBe32(b: seq<byte>): uint32
    requires |b| == 4
  {
    ((b[0] as int * 256 + b[1] as int) * 256 + b[2] as int) * 256 + b[3] as int
  }

  /** The first byte weighs most. */
  lemma BigEndian(b: seq<byte>)
    requires |b| == 4
    ensures FromBe32(b) == 16_777_216 * (b[0] as int) + 65_536 * (b[1] as int) + 256 * (b[2] as int) + b[3] as int
  {
  }

  lemma Be32RoundTrip(v: uint32)
    ensures FromBe32(Be32(v)) == v
  {
    var q1 := v / 256;
    var q2 := q1 / 256;
    var q3 := q2 / 256;
    assert q3 / 256 == 0;
    assert v == q1 * 256 + v % 256 && q1 == q2 * 256 + q1 % 256 && q2 == q3 * 256 + q2 % 256;
  }

  lemma Be32Onto(b: seq<byte>)
    requires |b| == 4
    ensures Be32(FromBe32(b)) == b
  {
    var q2 := b[0] as int * 256 + b[1] as int;
    var q1 := q2 * 256 + b[2] as int;
    var v := q1 * 256 + b[3] as int;
    assert v / 256 == q1 && v % 256 == b[3];
    assert q1 / 256 == q2 && q1 % 256 == b[2];
    assert q2 / 256 == b[0] && q2 % 256 == b[1];
  }

  // ---------- Records and segment files ----------

  /** The variable part of a record: payload and stored checksum. */
  datatype Slot = Slot(payload: seq<byte>, sum: seq<byte>)

  ghost predicate Readable(s: Slot) {
    |s.payload| <= MAX_RECORD && |s.sum| == 4
  }

  ghost predicate AllReadable(slots: seq<Slot>) {
    forall i :: 0 <= i < |slots| ==> Readable(slots[i])
  }

  function Frame(s: Slot): seq<byte>
    requires |s.payload| < 0x1_0000_0000
  {
    Be32(|s.payload|) + s.payload + s.sum
  }

  function Frames(slots: seq<Slot>): seq<byte>
    requires forall i :: 0 <= i < |slots| ==> |slots[i].payload| < 0x1_0000_0000
  {
    if slots == [] then [] else Frame(slots[0]) + Frames(slots[1..])
  }

  /** What one slot yields: nothing unless the checksum matches and the payload unmarshals. */
  function Decode(lib: Lib, s: Slot): (r: Option<Point>)
    requires |s.sum| == 4
  {
    if FromBe32(s.sum) != lib.crc(s.payload) then None
    else
      match lib.unmarshal(s.payload)
      case None => None
      case Some(pb) => Some(ProtoToPoint(pb))
  }

  function DecodeAll(lib: Lib, slots: seq<Slot>): seq<Point>
    requires forall i :: 0 <= i < |slots| ==> |slots[i].sum| == 4
  {
    if slots == [] then []
    else
      Maybe(Decode(lib, slots[0])) + DecodeAll(lib, slots[1..])
  }

  /** A stretch of bytes the reader gets nothing out of: too short for its record, or claiming an
      impossible length. */
  ghost predicate Dead(tail: seq<byte>) {
    || |tail| < 4
    || FromBe32(tail[..4]) > MAX_RECORD
    || |tail| < 8 + FromBe32(tail[..4])
  }

  /** The slot a live stretch of bytes starts with, and what follows it. */
  ghost function Head(b: seq<byte>): (s: Slot)
    requires !Dead(b)
    ensures Readable(s) && |s.payload| == FromBe32(b[..4])
  {
    var n := FromBe32(b[..4]);
    Slot(b[4..4 + n], b[4 + n..8 + n])
  }

  ghost function Behind(b: seq<byte>): (rest: seq<byte>)
    requires !Dead(b)
    ensures |rest| == |b| - 8 - FromBe32(b[..4])
  {
    b[8 + FromBe32(b[..4])..]
  }

  lemma HeadThenBehind(b: seq<byte>)
    requires !Dead(b)
    ensures b == Frame(Head(b)) + Behind(b)
  {
    var n := FromBe32(b[..4]);
    Be32Onto(b[..4]);
    assert b == b[..4] + b[4..4 + n] + b[4 + n..8 + n] + b[8 + n..];
  }

  /** The declarative reading of a file: the longest list of whole readable slots it starts with. */
  ghost function Slots(b: seq<byte>): (slots: seq<Slot>)
    ensures AllReadable(slots)
    decreases |b|
  {
    if Dead(b) then []
    else [Head(b)] + Slots(Behind(b))
  }

  /** The points a segment file yields, in order. */
  ghost function Scan(lib: Lib, b: seq<byte>): seq<Point> {
    DecodeAll(lib, Slots(b))
  }

  lemma ScanStep(lib: Lib, b: seq<byte>)
    ensures Dead(b) ==> Scan(lib, b) == []
    ensures !Dead(b) ==> Scan(lib, b) == Maybe(Decode(lib, Head(b))) + Scan(lib, Behind(b))
  {
    if !Dead(b) {
      assert Slots(b)[1..] == Slots(Behind(b));
    }
  }

  lemma {:induction false} FramesConcat(a: seq<Slot>, b: seq<Slot>)
    requires AllReadable(a) && AllReadable(b)
    ensures AllReadable(a + b)
    ensures Frames(a + b) == Frames(a) + Frames(b)
  {
    if a == [] {
      assert a + b == b;
    } else {
      FramesConcat(a[1..], b);
      assert (a + b)[1..] == a[1..] + b;
      hide Frame;
      assert Frame(a[0]) + (Frames(a[1..]) + Frames(b)) == Frame(a[0]) + Frames(a[1..]) + Frames(b);
    }
  }

  lemma {:induction false} DecodeAllConcat(lib: Lib, a: seq<Slot>, b: seq<Slot>)
    requires AllReadable(a) && AllReadable(b)
    ensures DecodeAll(lib, a + b) == DecodeAll(lib, a) + DecodeAll(lib, b)
  {
    if a == [] {
      assert a + b == b;
    } else {
      DecodeAllConcat(lib, a[1..], b);
      assert (a + b)[1..] == a[1..] + b;
    }
  }

  /** A frame is read back as the slot it was made from. */
  lemma FrameLayout(s: Slot, rest: seq<byte>)
    requires Readable(s)
    ensures !Dead(Frame(s) + rest) && Head(Frame(s) + rest) == s && Behind(Frame(s) + rest) == rest
  {
    var b := Frame(s) + rest;
    assert b[..4] == Be32(|s.payload|);
    Be32RoundTrip(|s.payload|);
  }

  /** Reading is the inverse of writing, for any list of slots and any dead tail. */
  lemma {:induction false} SlotsOfFrames(slots: seq<Slot>, tail: seq<byte>)
    requires AllReadable(slots) && Dead(tail)
    ensures Slots(Frames(slots) + tail) == slots
  {
    if slots == [] {
      assert Frames(slots) + tail == tail;
    } else {
      assert Frames(slots) + tail == Frame(slots[0]) + (Frames(slots[1..]) + tail);
      FrameLayout(slots[0], Frames(slots[1..]) + tail);
      SlotsOfFrames(slots[1..], tail);
    }
  }

  /** Every byte string is whole readable records followed by a dead tail, and in no other way. */
  lemma {:induction false} SlotsComplete(b: seq<byte>)
    ensures Frames(Slots(b)) <= b
    ensures Dead(b[|Frames(Slots(b))|..])
    ensures 8 * |Slots(b)| <= |b|
    decreases |b|
  {
    if Dead(b) {
      assert b[0..] == b;
    } else {
      HeadThenBehind(b);
      SlotsComplete(Behind(b));
      var first, rest := Frame(Head(b)), Behind(b);
      assert Slots(b)[1..] == Slots(rest);
      assert Frames(Slots(b)) == first + Frames(Slots(rest));
      assert b[|Frames(Slots(b))|..] == rest[|Frames(Slots(rest))|..];
    }
  }

  /** Nothing is yielded unchecked: every point comes from a payload whose checksum matched. */
  lemma {:induction false} YieldsAreChecked(lib: Lib, slots: seq<Slot>, p: Point) returns (i: nat)
    requires AllReadable(slots) && p in DecodeAll(lib, slots)
    ensures i < |slots| && FromBe32(slots[i].sum) == lib.crc(slots[i].payload)
    ensures lib.unmarshal(slots[i].payload).Some? && p == ProtoToPoint(lib.unmarshal(slots[i].payload).value)
  {
    if p in Maybe(Decode(lib, slots[0])) {
      i := 0;
    } else {
      assert p in DecodeAll(lib, slots[1..]);
      i := YieldsAreChecked(lib, slots[1..], p);
      i := i + 1;
    }
  }

  /** Cutting a file of readable records at any byte yields exactly the records that are complete. */
  lemma {:induction false} Truncation(lib: Lib, slots: seq<Slot>, k: nat) returns (m: nat)
    requires AllReadable(slots) && k <= |Frames(slots)|
    ensures m <= |slots| && |Frames(slots[..m])| <= k
    ensures m < |slots| ==> k < |Frames(slots[..m + 1])|
    ensures Scan(lib, Frames(slots)[..k]) == DecodeAll(lib, slots[..m])
    decreases |slots|
  {
    m := TruncationSlots(slots, k);
  }

  /** A frame cut short is dead. */
  lemma CutFrameIsDead(s: Slot, k: nat)
    requires Readable(s) && k < |Frame(s)|
    ensures Dead(Frame(s)[..k])
  {
    var cut := Frame(s)[..k];
    if k >= 4 {
      assert cut[..4] == Be32(|s.payload|);
      Be32RoundTrip(|s.payload|);
    }
  }

  lemma {:induction false} TruncationSlots(slots: seq<Slot>, k: nat) returns (m: nat)
    requires AllReadable(slots) && k <= |Frames(slots)|
    ensures m <= |slots| && |Frames(slots[..m])| <= k
    ensures m < |slots| ==> k < |Frames(slots[..m + 1])|
    ensures Slots(Frames(slots)[..k]) == slots[..m]
  {
    m := 0;
    if slots == [] {
      NoFrames();
    } else {
      FramesOfAll(slots);
      hide Frames, Frame, Slots, Readable;
      var more, n := slots[1..], |Frame(slots[0])|;
      if k < n {
        NothingComplete(slots, k);
      } else {
        var i := TruncationSlots(more, k - n);
        m := i + 1;
        FirstComplete(slots, k, i);
        FramesTakeOneMore(slots, i);
        if m < |slots| {
          FramesTakeOneMore(slots, i + 1);
        }
      }
    }
  }

  lemma NoFrames()
    ensures Frames([]) == [] && Slots([]) == []
  {
  }

  lemma FramesOfAll(slots: seq<Slot>)
    requires AllReadable(slots) && slots != []
    ensures Readable(slots[0]) && AllReadable(slots[1..])
    ensures Frames(slots) == Frame(slots[0]) + Frames(slots[1..])
  {
    hide Frame;
  }

  lemma {:induction false} NothingComplete(slots: seq<Slot>, k: nat)
    requires AllReadable(slots) && slots != [] && k < |Frame(slots[0])|
    ensures Slots(Frames(slots)[..k]) == slots[..0] && |Frames(slots[..0])| <= k < |Frames(slots[..1])|
  {
    assert Frames(slots)[..k] == Frame(slots[0])[..k];
    CutFrameIsDead(slots[0], k);
    assert slots[..1] == [slots[0]] && [slots[0]][1..] == [];
  }

  lemma {:induction false} FirstComplete(slots: seq<Slot>, k: nat, i: nat)
    requires AllReadable(slots) && slots != [] && |Frame(slots[0])| <= k <= |Frames(slots)| && i < |slots|
    requires Slots(Frames(slots[1..])[..k - |Frame(slots[0])|]) == slots[1..][..i]
    ensures Slots(Frames(slots)[..k]) == slots[..i + 1]
  {
    FramesOfAll(slots);
    hide Frame, Frames, Slots, Readable, AllReadable;
    var s, more := slots[0], slots[1..];
    PrefixOfConcat(Frame(s), Frames(more), k);
    SlotsOfOneMore(s, Frames(more)[..k - |Frame(s)|]);
    TakeFromTail(slots, i);
  }

  lemma SlotsOfOneMore(s: Slot, rest: seq<byte>)
    requires Readable(s)
    ensures Slots(Frame(s) + rest) == [s] + Slots(rest)
  {
    FrameLayout(s, rest);
    hide Frame, Dead, Head, Behind;
  }

  lemma FramesTakeOneMore(slots: seq<Slot>, i: nat)
    requires AllReadable(slots) && i < |slots|
    ensures slots[..i + 1] == [slots[0]] + slots[1..][..i]
    ensures Frames(slots[..i + 1]) == Frame(slots[0]) + Frames(slots[1..][..i])
  {
    assert slots[..i + 1] == [slots[0]] + slots[1..][..i];
    assert slots[..i + 1][1..] == slots[1..][..i];
  }

  /** The points of the records that damage left alone. */
  ghost function Untouched(lib: Lib, was: seq<Slot>, now: seq<Slot>): seq<Point>
    requires |was| == |now| && AllReadable(was)
  {
    if was == [] then []
    else
      (if was[0] != now[0] then [] else Maybe(Decode(lib, was[0])))
      + Untouched(lib, was[1..], now[1..])
  }

  ghost predicate SameShape(was: seq<Slot>, now: seq<Slot>) {
    && |was| == |now|
    && forall i :: 0 <= i < |was| ==> |was[i].payload| == |now[i].payload| && |was[i].sum| == |now[i].sum|
  }

  /** Damage inside payloads and checksums, length headers intact, never costs a record it did not touch:
      the reader yields the damaged file's own slots one by one, so the untouched points come out in order,
      and nothing else comes out unless a damaged slot still passes its checksum. */
  lemma {:induction false} DamageIsLocal(lib: Lib, was: seq<Slot>, now: seq<Slot>)
    requires AllReadable(was) && SameShape(was, now)
    ensures AllReadable(now) && |Frames(now)| == |Frames(was)|
    ensures Scan(lib, Frames(now)) == DecodeAll(lib, now)
    ensures Subseq(Untouched(lib, was, now), Scan(lib, Frames(now)))
    ensures (forall i :: 0 <= i < |was| && was[i] != now[i] ==> Decode(lib, now[i]) == None) ==>
              Scan(lib, Frames(now)) == Untouched(lib, was, now)
  {
    assert Frames(now) + [] == Frames(now);
    SlotsOfFrames(now, []);
    DamageIsLocalSlots(lib, was, now);
  }

  lemma {:induction false} DamageIsLocalSlots(lib: Lib, was: seq<Slot>, now: seq<Slot>)
    requires AllReadable(was) && AllReadable(now) && SameShape(was, now)
    ensures |Frames(now)| == |Frames(was)|
    ensures Subseq(Untouched(lib, was, now), DecodeAll(lib, now))
    ensures (forall i :: 0 <= i < |was| && was[i] != now[i] ==> Decode(lib, now[i]) == None) ==>
              DecodeAll(lib, now) == Untouched(lib, was, now)
  {
    if was != [] {
      DamageIsLocalSlots(lib, was[1..], now[1..]);
      var a := if was[0] != now[0] then [] else Maybe(Decode(lib, was[0]));
      var b := Maybe(Decode(lib, now[0]));
      if was[0] == now[0] {
        SubseqRefl(a);
      } else {
        SubseqNil(b);
      }
      SubseqConcat(a, b, Untouched(lib, was[1..], now[1..]), DecodeAll(lib, now[1..]));
      if forall i :: 0 <= i < |was| && was[i] != now[i] ==> Decode(lib, now[i]) == None {
        forall i | 0 <= i < |was[1..]| && was[1..][i] != now[1..][i]
          ensures Decode(lib, now[1..][i]) == None
        {
          assert was[i + 1] != now[i + 1];
        }
      }
    }
  }

  // ---------- Appending ----------

  /** A file is still open for readable records: its records are whole up to the end. */
  ghost predicate Clean(b: seq<byte>) {
    b == Frames(Slots(b))
  }

  /** An oversized record blocks the reader for good. */
  ghost predicate Blocked(b: seq<byte>) {
    var tail := b[if |Frames(Slots(b))| <= |b| then |Frames(Slots(b))| else 0..];
    |tail| >= 4 && FromBe32(tail[..4]) > MAX_RECORD
  }

  lemma AppendReadable(lib: Lib, b: seq<byte>, s: Slot)
    requires Clean(b) && Readable(s)
    ensures Clean(b + Frame(s))
    ensures Slots(b + Frame(s)) == Slots(b) + [s]
    ensures Scan(lib, b + Frame(s)) == Scan(lib, b) + Maybe(Decode(lib, s))
  {
    var all := Slots(b) + [s];
    FramesConcat(Slots(b), [s]);
    assert [s][1..] == [];
    assert Frames([s]) == Frame(s);
    assert Frames(all) + [] == b + Frame(s);
    SlotsOfFrames(all, []);
    DecodeAllConcat(lib, Slots(b), [s]);
    assert DecodeAll(lib, [s]) == Maybe(Decode(lib, s));
  }

  /** After a record over 10 MiB, which the writer accepts, neither it nor anything behind it is ever read. */
  lemma AppendOversized(lib: Lib, b: seq<byte>, s: Slot, more: seq<byte>)
    requires Clean(b) && 10_485_760 < |s.payload| < 0x1_0000_0000
    ensures Blocked(b + Frame(s))
    ensures Scan(lib, b + Frame(s) + more) == Scan(lib, b)
  {
    Be32RoundTrip(|s.payload|);
    var dead := Frame(s) + more;
    assert dead[..4] == Be32(|s.payload|) == Frame(s)[..4];
    assert b + Frame(s) + more == b + dead;
    SlotsOfFrames(Slots(b), dead);
    SlotsOfFrames(Slots(b), Frame(s));
    assert (b + Frame(s))[|b|..] == Frame(s);
  }

  lemma AppendBlocked(lib: Lib, b: seq<byte>, more: seq<byte>)
    requires Blocked(b)
    ensures Blocked(b + more) && Scan(lib, b + more) == Scan(lib, b)
  {
    SlotsComplete(b);
    var whole := Frames(Slots(b));
    var tail := b[|whole|..];
    assert (tail + more)[..4] == tail[..4];
    assert b + more == whole + (tail + more);
    SlotsOfFrames(Slots(b), tail + more);
    assert (b + more)[|whole|..] == tail + more;
  }

  // ---------- The encoder and the reader as the source runs them ----------

  method PutUint32(buf: array<byte>, at: nat, v: uint32)
    requires at + 4 <= buf.Length
    modifies buf
    ensures buf[..] == old(buf[..at]) + Be32(v) + old(buf[at + 4..])
  {
    buf[at] := v / 256 / 256 / 256;
    buf[at + 1] := v / 256 / 256 % 256;
    buf[at + 2] := v / 256 % 256;
    buf[at + 3] := v % 256;
    assert buf[..] == buf[..at] + buf[at..at + 4] + buf[at + 4..];
  }

  /** encodeRecord, once the payload is marshalled: fills a buffer of the exact size in place. */
  method EncodeRecord(lib: Lib, payload: seq<byte>) returns (buf: array<byte>)
    ensures fresh(buf)
    ensures buf[..] == Be32(|payload| % 0x1_0000_0000) + payload + Be32(lib.crc(payload))
  {
    var n := |payload|;
    buf := new byte[4 + n + 4](_ => 0);
    PutUint32(buf, 0, n % 0x1_0000_0000);
    var head := buf[..4];
    assert head == Be32(n % 0x1_0000_0000);
    forall i | 0 <= i < n {
      buf[4 + i] := payload[i];
    }
    assert buf[..4 + n] == head + payload;
    PutUint32(buf, 4 + n, lib.crc(payload));
    assert buf[..] == head + payload + Be32(lib.crc(payload));
  }

  /** What a freshly encoded record decodes to. */
  lemma EncodeThenDecode(lib: Lib, payload: seq<byte>, p: Point)
    requires lib.unmarshal(payload) == Some(PointToProto(p))
    ensures Decode(lib, Slot(payload, Be32(lib.crc(payload)))) == Some(Stored(p))
  {
    Be32RoundTrip(lib.crc(payload));
  }

  datatype ReadError = Ok | Eof | UnexpectedEof | Bad

  /** An open file: its bytes and the read offset, which a seek may move past the end. Any read or seek may fail:
      faults counts those that do, and lost records that the position could not be learnt. */
  class Reader {
    const data: seq<byte>
    var pos: nat
    ghost var faults: nat
    ghost var lost: bool

    constructor (data: seq<byte>)
      ensures this.data == data && pos == 0 && faults == 0 && !lost
    {
      this.data := data;
      pos, faults, lost := 0, 0, false;
    }

    /** The bytes not yet read. */
    ghost function Rest(): seq<byte>
      reads this
    {
      if pos <= |data| then data[pos..] else []
    }

    /** Seek with no offset, to learn the position. */
    method Tell() returns (at: Option<nat>)
      modifies this`lost
      ensures at.Some? ==> at.value == pos && lost == old(lost)
      ensures at.None? ==> lost
    {
      var ok: bool := *;
      at := if ok then Some(pos) else None;
      lost := lost || !ok;
    }

    method SeekTo(to: nat) returns (ok: bool)
      modifies this`pos, this`faults
      ensures ok ==> pos == to && faults == old(faults)
      ensures !ok ==> pos == old(pos) && faults == old(faults) + 1
    {
      ok := *;
      if ok {
        pos := to;
      } else {
        faults := faults + 1;
      }
    }

    /** io.ReadFull: all n bytes or an error, Eof only when nothing at all was left, Bad when the file could not
        be read. */
    method ReadFull(n: nat) returns (buf: seq<byte>, err: ReadError)
      modifies this`pos, this`faults
      ensures err.Bad? ==> faults == old(faults) + 1
      ensures !err.Bad? ==> faults == old(faults) && (err.Ok? <==> n <= old(|Rest()|))
      ensures err.Ok? ==> buf == old(Rest()[..n]) && Rest() == old(Rest()[n..]) && pos == old(pos) + n
      ensures err.Eof? ==> n > 0 && old(Rest()) == []
      ensures err.UnexpectedEof? ==> 0 < old(|Rest()|) < n
    {
      if n == 0 {
        return [], Ok;
      }
      var fault: bool := *;
      if fault {
        pos, faults := *, faults + 1;
        return [], Bad;
      }
      if pos >= |data| {
        return [], Eof;
      }
      if |data| - pos < n {
        buf := data[pos..];
        pos := |data|;
        return buf, UnexpectedEof;
      }
      buf := data[pos..pos + n];
      pos := pos + n;
      err := Ok;
    }
  }

  /** decodeRecord. Errors after the header are wrapped, so they read as Bad even when the file just ended;
      payloadLen is -1 when the record's extent is unknown. A header that could not be read is like a record of
      impossible length, a payload or checksum that could not be read like a damaged one. */
  method DecodeRecord(lib: Lib, r: Reader) returns (p: Option<Point>, payloadLen: int, err: ReadError)
    modifies r`pos, r`faults
    ensures err.Ok? <==> p.Some?
    ensures var b := old(r.Rest());
            && (payloadLen == -1 || (|b| >= 4 && payloadLen == FromBe32(b[..4]) <= MAX_RECORD))
            && (err.Eof? || err.UnexpectedEof? ==> |b| < 4)
            && (p.Some? ==> !Dead(b) && p == Decode(lib, Head(b)) && r.faults == old(r.faults))
    ensures var b := old(r.Rest());
            r.faults == old(r.faults) ==>
              && (!err.Ok? && !err.Bad? <==> |b| < 4)
              && payloadLen == (if |b| < 4 || FromBe32(b[..4]) > MAX_RECORD then -1 else FromBe32(b[..4]))
              && p == if Dead(b) then None else Decode(lib, Head(b))
    ensures r.faults != old(r.faults) ==> r.faults == old(r.faults) + 1 && err.Bad?
    ensures err.Ok? ==> r.Rest() == Behind(old(r.Rest())) && r.pos == old(r.pos) + 8 + payloadLen
  {
    hide FromBe32, Be32, Frame;
    p := None;
    ghost var b := r.Rest();
    var lenBuf, e := r.ReadFull(4);
    if !e.Ok? {
      return None, -1, e;
    }
    var length := FromBe32(lenBuf);
    if length > MAX_RECORD {
      return None, -1, Bad;
    }
    payloadLen := length;
    var payload;
    payload, e := r.ReadFull(length);
    if !e.Ok? {
      return None, payloadLen, Bad;
    }
    var crcBuf;
    crcBuf, e := r.ReadFull(4);
    if !e.Ok? {
      return None, payloadLen, Bad;
    }
    assert Slot(payload, crcBuf) == Head(b) && r.Rest() == Behind(b);
    if FromBe32(crcBuf) != lib.crc(payload) {
      return None, payloadLen, Bad;
    }
    var pb := lib.unmarshal(payload);
    if pb.None? {
      return None, payloadLen, Bad;
    }
    p := Some(ProtoToPoint(pb.value));
    err := Ok;
  }

  /** How a round of the reader ends: the file is done with, the file is to be kept, nothing, or a point. */
  datatype ReadStep = Stop | Fail | Skip | Yield(p: Point)

  /** One round of the loop in drainSegment: decode, and on a bad record seek past its extent. Only a failure to
      learn the position is an error of the whole; any other fault costs the record, or the rest of the file. */
  method ReadStepFrom(lib: Lib, r: Reader) returns (step: ReadStep)
    modifies r
    ensures r.lost == (old(r.lost) || step.Fail?)
    ensures step.Stop? && r.faults == old(r.faults) ==> Scan(lib, old(r.Rest())) == []
    ensures step.Skip? ==> Scan(lib, r.Rest()) == Scan(lib, old(r.Rest()))
                           || (r.faults > old(r.faults)
                               && exists p :: Scan(lib, old(r.Rest())) == [p] + Scan(lib, r.Rest()))
    ensures step.Yield? ==> Scan(lib, old(r.Rest())) == [step.p] + Scan(lib, r.Rest()) && r.faults == old(r.faults)
    ensures step.Skip? || step.Yield? ==> old(r.pos) + 8 <= r.pos <= |r.data| + 8 + MAX_RECORD
    ensures r.faults >= old(r.faults)
  {
    ghost var b := r.Rest();
    ScanStep(lib, b);
    var start := r.Tell();
    if start.None? {
      return Fail;
    }
    var p, payloadLen, err := DecodeRecord(lib, r);
    if err.Eof? || err.UnexpectedEof? {
      return Stop;
    }
    if err.Bad? {
      if payloadLen < 0 {
        return Stop;
      }
      var ok := r.SeekTo(start.value + 4 + payloadLen + 4);
      if !ok {
        return Stop;
      }
      assert r.Rest() == if Dead(b) then [] else Behind(b);
      return Skip;
    }
    return Yield(p.value);
  }

  /** How drainSegment returns: nil, or one of the errors after which the file is kept. */
  datatype DrainEnd = Finished | NotOpened | PositionLost | Cancelled

  /** drainSegment, once the file is open. A cancellation may be noticed at any send. What comes out is an in-order
      selection of the declarative reading of the file; without a fault a prefix of it, and all of it when
      finished. Of all that can go wrong only a lost position and a cancellation are errors: after any other
      fault, even one that costs the rest of the file, the file counts as read out. Each round moves the offset
      by at least 8. */
  method DrainSegment(lib: Lib, data: seq<byte>, cancelAt: Option<nat>)
    returns (out: seq<Point>, end: DrainEnd, ghost rounds: nat, ghost faults: nat, ghost lost: bool)
    ensures Subseq(out, Scan(lib, data))
    ensures faults == 0 ==> out <= Scan(lib, data) && (end.Finished? ==> out == Scan(lib, data))
    ensures end.PositionLost? <==> lost
    ensures !end.NotOpened? && (end.Cancelled? ==> cancelAt == Some(|out|) && |out| < |Scan(lib, data)|)
    ensures 8 * rounds <= |data| + 8 + MAX_RECORD
  {
    hide Scan, Subseq;
    var r := new Reader(data);
    out, end, rounds := [], Finished, 0;
    ghost var all, left := Scan(lib, data), Scan(lib, data);
    assert r.Rest() == data;
    SubseqRefl(all);
    assert [] + all == all;
    while true
      invariant end.Finished? && fresh(r) && r.data == data && !r.lost
      invariant left == Scan(lib, r.Rest()) && Subseq(out + left, all)
      invariant r.faults == 0 ==> out + left == all
      invariant 8 * rounds <= r.pos <= |data| + 8 + MAX_RECORD
      decreases |data| + 8 + MAX_RECORD - r.pos
    {
      ghost var before := left;
      var step := ReadStepFrom(lib, r);
      if step.Stop? {
        break;
      }
      if step.Fail? {
        end := PositionLost;
        break;
      }
      left := Scan(lib, r.Rest());
      if step.Yield? {
        if cancelAt == Some(|out|) {
          end, left := Cancelled, before;
          SubseqLength(out + left, all);
          break;
        }
        assert out + before == out + [step.p] + left;
        out := out + [step.p];
      } else {
        SubseqSkip(out, before, left, all);
      }
      rounds := rounds + 1;
    }
    SubseqFront(out, left, all);
    faults, lost := r.faults, r.lost;
  }
}
