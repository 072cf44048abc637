/** From the normalizer's output to the messages on the wire, through the buffer manager and the sender. */
module EndToEnd {
  import opened Seqs
  import opened Points
  import opened BufferModel
  import opened BufferProofs
  import opened BufferTheorems
  import S = Sender

  /** The messages the stream accepted, in order. */
  ghost function SentMessages(bs: seq<S.Batch>): seq<Proto> {
    if bs == [] then []
    else SentMessages(bs[..|bs| - 1]) + if bs[|bs| - 1].ok then bs[|bs| - 1].messages else []
  }

  lemma {:induction false} SentOnWire(bs: seq<S.Batch>, maxSize: nat)
    requires S.WellNumbered(bs, maxSize)
    ensures SentMessages(bs) == S.ToWire(S.Sent(bs))
  {
    if bs != [] {
      SentOnWire(bs[..|bs| - 1], maxSize);
    }
  }

  /** The message of a point survives the log: all the log drops is what the message does not carry. */
  lemma WireOfStored(ps: seq<Point>)
    ensures S.ToWire(AllStored(ps)) == S.ToWire(ps)
  {
    forall i | 0 <= i < |ps|
      ensures S.ToWire(AllStored(ps))[i] == S.ToWire(ps)[i]
    {
      StoredIdempotent(ps[i]);
    }
  }

  lemma {:induction false} WireInOrder(a: seq<Point>, b: seq<Point>)
    requires Subseq(a, b)
    ensures Subseq(S.ToWire(a), S.ToWire(b))
    decreases |b|
  {
    if a != [] {
      assert S.ToWire(b)[1..] == S.ToWire(b[1..]);
      if a[0] == b[0] && Subseq(a[1..], b[1..]) {
        WireInOrder(a[1..], b[1..]);
        assert S.ToWire(a)[1..] == S.ToWire(a[1..]);
      } else {
        WireInOrder(a, b[1..]);
      }
    }
  }

  /** Whatever the interleaving in the buffer manager and whatever becomes of connections and sends: when the
      sender has taken the first points the manager put out, the messages it got through are, in order and
      exactly, messages of the recovered records followed by the admitted points. They start with the first
      one and skip none when nothing was lost and no send failed. */
  lemma InputToWire(init: State, actions: seq<Action>, s: State, bs: seq<S.Batch>, held: seq<Point>, maxSize: nat)
    requires Run(init, actions, s)
    requires S.WellNumbered(bs, maxSize)
    requires s.received <= |s.output| && S.Handed(bs) + held == s.output[..s.received]
    ensures var origin := S.ToWire(init.recovered + AdmittedBy(actions));
            && Subseq(SentMessages(bs), origin)
            && (Lost(s.tally) == 0 && S.Failed(bs) == 0 ==> SentMessages(bs) <= origin)
    ensures s.received <= |SentMessages(bs)| + S.Failed(bs) * Larger(1, maxSize) + |held|
  {
    hide Subseq, Run, S.Handed, S.Sent, S.Failed, S.WellNumbered;
    hide SentMessages, AdmittedBy, AllStored, S.ToWire, PartsOf;
    var origin, sent, out := init.recovered + AdmittedBy(actions), S.Sent(bs), s.output;
    Order(init, actions, s);
    NoLoss(init, actions, s);
    S.SentOfHanded(bs, maxSize);
    SentOnWire(bs, maxSize);
    assert S.Handed(bs) <= out;
    SubseqPrefix(S.Handed(bs), out);
    SubseqTrans(sent, S.Handed(bs), out);
    WireInOrder(sent, out);
    WireInOrder(AllStored(out), AllStored(origin));
    WireOfStored(out);
    WireOfStored(origin);
    SubseqTrans(S.ToWire(sent), S.ToWire(out), S.ToWire(origin));
    if Lost(s.tally) == 0 && S.Failed(bs) == 0 {
      WirePrefix(sent, out);
      WirePrefix(AllStored(out), AllStored(origin));
    }
  }

  lemma WirePrefix(a: seq<Point>, b: seq<Point>)
    requires a <= b
    ensures S.ToWire(a) <= S.ToWire(b)
  {
  }
}
