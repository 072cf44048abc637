/** A log file as a whole (internal/buffer/wal.go): points written one after the other and read back. */
module LogFile {
  import opened Seqs
  import opened Points
  import opened Codec

  /** The records encodeRecord makes of payloads. */
  function Recorded(lib: Lib, payloads: seq<seq<byte>>): (slots: seq<Slot>)
    ensures |slots| == |payloads|
    ensures forall i :: 0 <= i < |payloads| ==> slots[i] == Slot(payloads[i], Be32(lib.crc(payloads[i])))
  {
    seq(|payloads|, i requires 0 <= i < |payloads| => Slot(payloads[i], Be32(lib.crc(payloads[i]))))
  }

  /** The payloads encode the points and are within the reader's limit. */
  ghost predicate Encodes(lib: Lib, payloads: seq<seq<byte>>, ps: seq<Point>) {
    && |payloads| == |ps|
    && forall i :: 0 <= i < |ps| ==>
         |payloads[i]| <= MAX_RECORD && lib.unmarshal(payloads[i]) == Some(PointToProto(ps[i]))
  }

  lemma {:induction false} DecodeRecorded(lib: Lib, payloads: seq<seq<byte>>, ps: seq<Point>)
    requires Encodes(lib, payloads, ps)
    ensures AllReadable(Recorded(lib, payloads))
    ensures DecodeAll(lib, Recorded(lib, payloads)) == AllStored(ps)
  {
    if ps == [] {
    } else {
      hide Decode, Be32, Stored, PointToProto;
      DecodeRecorded(lib, payloads[1..], ps[1..]);
      EncodeThenDecode(lib, payloads[0], ps[0]);
      assert Recorded(lib, payloads)[1..] == Recorded(lib, payloads[1..]);
      assert ps == [ps[0]] + ps[1..];
      AllStoredConcat([ps[0]], ps[1..]);
    }
  }

  /** Points written one after the other, and the file cut off anywhere: reading gives back exactly the points
      whose records are complete, up to the log's projection, in order. */
  lemma TruncatedLog(lib: Lib, payloads: seq<seq<byte>>, ps: seq<Point>, k: nat) returns (m: nat)
    requires Encodes(lib, payloads, ps) && k <= |Frames(Recorded(lib, payloads))|
    ensures m <= |ps| && |Frames(Recorded(lib, payloads[..m]))| <= k
    ensures m < |ps| ==> k < |Frames(Recorded(lib, payloads[..m + 1]))|
    ensures Scan(lib, Frames(Recorded(lib, payloads))[..k]) == AllStored(ps[..m])
  {
    var slots := Recorded(lib, payloads);
    hide Scan, Frames, DecodeAll, Be32;
    m := Truncation(lib, slots, k);
    assert slots[..m] == Recorded(lib, payloads[..m]);
    assert m < |ps| ==> slots[..m + 1] == Recorded(lib, payloads[..m + 1]);
    DecodeRecorded(lib, payloads[..m], ps[..m]);
  }
}
