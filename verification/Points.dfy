/** Telemetry points (internal/normalizer/point.go) and the projection onto the wire message that the
    write-ahead log stores (internal/buffer/convert.go). */
module Points {
  import opened Seqs

  const NANOS_PER_MILLI := 1_000_000

  /** Times are nanoseconds since the Unix epoch; a Go map that may be nil is an Option. */
  datatype Point = Point(
    id: string,
    agentId: string,
    adapterName: string,
    source: string,
    rackId: string,
    timestamp: int,
    receivedAt: int,
    metrics: Option<map<string, real>>,
    tags: Option<map<string, string>>)

  /** The protobuf message. A nil and an empty map have the same encoding, so metrics is a plain map. */
  datatype Proto = Proto(
    id: string,
    agentId: string,
    adapterName: string,
    source: string,
    rackId: string,
    timestampMs: int,
    receivedAtMs: int,
    metrics: map<string, real>)

  /** UnixMilli rounds towards minus infinity: the nanosecond field of a Go time is never negative. */
  function UnixMilli(nanos: int): int {
    nanos / NANOS_PER_MILLI
  }

  function PointToProto(p: Point): Proto {
    Proto(p.id, p.agentId, p.adapterName, p.source, p.rackId,
          UnixMilli(p.timestamp), UnixMilli(p.receivedAt),
          if p.metrics.Some? then p.metrics.value else map[])
  }

  function ProtoToPoint(pb: Proto): Point {
    Point(pb.id, pb.agentId, pb.adapterName, pb.source, pb.rackId,
          pb.timestampMs * NANOS_PER_MILLI, pb.receivedAtMs * NANOS_PER_MILLI,
          Some(pb.metrics), None)
  }

  /** What the message of a point carries: its five texts, each of its times as the whole milliseconds passed since
      the epoch, and its metrics entry by entry, none if there are none. */
  lemma MessageCarries(p: Point)
    ensures var pb := PointToProto(p);
            && (pb.id, pb.agentId, pb.adapterName, pb.source, pb.rackId)
               == (p.id, p.agentId, p.adapterName, p.source, p.rackId)
            && pb.timestampMs * 1_000_000 <= p.timestamp < (pb.timestampMs + 1) * 1_000_000
            && pb.receivedAtMs * 1_000_000 <= p.receivedAt < (pb.receivedAtMs + 1) * 1_000_000
            && (forall k :: k in pb.metrics <==> p.metrics.Some? && k in p.metrics.value)
            && (forall k :: k in pb.metrics ==> pb.metrics[k] == p.metrics.value[k])
  {
  }

  /** protoToPoint as the source runs it, copying the metrics entry by entry. */
  method ProtoToPointCopying(pb: Proto) returns (p: Point)
    ensures p == ProtoToPoint(pb)
    ensures (p.id, p.agentId, p.adapterName, p.source, p.rackId)
            == (pb.id, pb.agentId, pb.adapterName, pb.source, pb.rackId)
    ensures p.timestamp == pb.timestampMs * 1_000_000 && p.receivedAt == pb.receivedAtMs * 1_000_000
    ensures p.metrics == Some(pb.metrics) && p.tags == None
  {
    var metrics: map<string, real> := map[];
    var todo := pb.metrics.Keys;
    while todo != {}
      invariant todo <= pb.metrics.Keys
      invariant metrics == map k | k in pb.metrics && k !in todo :: pb.metrics[k]
      decreases |todo|
    {
      var k :| k in todo;
      metrics := metrics[k := pb.metrics[k]];
      todo := todo - {k};
    }
    assert metrics == pb.metrics;
    p := Point(pb.id, pb.agentId, pb.adapterName, pb.source, pb.rackId,
               pb.timestampMs * NANOS_PER_MILLI, pb.receivedAtMs * NANOS_PER_MILLI,
               Some(metrics), None);
  }

  /** What is left of a point after a trip through the log. */
  function Stored(p: Point): Point {
    ProtoToPoint(PointToProto(p))
  }

  function AllStored(ps: seq<Point>): (r: seq<Point>)
    ensures |r| == |ps|
    ensures forall i :: 0 <= i < |ps| ==> r[i] == Stored(ps[i])
  {
    seq(|ps|, i requires 0 <= i < |ps| => Stored(ps[i]))
  }

  lemma AllStoredConcat(a: seq<Point>, b: seq<Point>)
    ensures AllStored(a + b) == AllStored(a) + AllStored(b)
  {
  }

  /** A second trip loses nothing more. */
  lemma StoredIdempotent(p: Point)
    ensures Stored(Stored(p)) == Stored(p)
    ensures PointToProto(Stored(p)) == PointToProto(p)
  {
  }

  /** The log returns a point unchanged exactly when it carries no tags, has a metrics map and both its
      times are whole milliseconds; times are never moved by a full millisecond. */
  lemma StoredFidelity(p: Point)
    ensures Stored(p) == p <==>
            && p.tags == None && p.metrics.Some?
            && p.timestamp % NANOS_PER_MILLI == 0 && p.receivedAt % NANOS_PER_MILLI == 0
    ensures Stored(p).timestamp <= p.timestamp < Stored(p).timestamp + NANOS_PER_MILLI
    ensures Stored(p).receivedAt <= p.receivedAt < Stored(p).receivedAt + NANOS_PER_MILLI
  {
    assert p.timestamp == (p.timestamp / NANOS_PER_MILLI) * NANOS_PER_MILLI + p.timestamp % NANOS_PER_MILLI;
    assert p.receivedAt == (p.receivedAt / NANOS_PER_MILLI) * NANOS_PER_MILLI + p.receivedAt % NANOS_PER_MILLI;
  }
}
