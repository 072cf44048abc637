/** The cloud client's retry buffer and idempotency key (internal/cloud/client.go). */
module Cloud {
  import opened Seqs

  const DEFAULT_MAX_BUFFER := 1000

  /** A Go string is a sequence of bytes. */
  type Text = seq<byte>

  /** A sample: the two fields the idempotency key is made from, and the rest. */
  datatype Sample = Sample(deviceId: Text, timestamp: Text, rest: Text)

  /** What becomes of one POST. */
  datatype Reply = MarshalFailed | RequestFailed | NetworkFailed | Status(code: int)

  datatype Verdict = Accepted | Rejected | Retry

  predicate IsTransientStatus(code: int) {
    code == 408 || code == 429 || code >= 500
  }

  /** Only 202 is a success; what cannot be built or sent, and what the server may take later, is retried. */
  function Judge(reply: Reply): Verdict {
    match reply
    case MarshalFailed => Retry
    case RequestFailed => Retry
    case NetworkFailed => Retry
    case Status(code) => if code == 202 then Accepted else if IsTransientStatus(code) then Retry else Rejected
  }

  /** The limit trimBuffer applies. */
  function Limit(maxBuffer: int): (n: nat)
    ensures n > 0
  {
    if maxBuffer <= 0 then DEFAULT_MAX_BUFFER else maxBuffer
  }

  class Client {
    const maxBuffer: int
    var buffer: seq<Sample>

    ghost predicate Valid()
      reads this
    {
      |buffer| <= Limit(maxBuffer)
    }

    constructor (maxBuffer: int)
      ensures Valid() && this.maxBuffer == maxBuffer && buffer == []
    {
      this.maxBuffer, buffer := maxBuffer, [];
    }

    /** The first critical section of Send. */
    method TakePending(samples: seq<Sample>) returns (pending: seq<Sample>)
      modifies this
      ensures pending == old(buffer) + samples && buffer == []
    {
      pending := buffer + samples;
      buffer := [];
    }

    /** trimBuffer: the newest samples are kept. */
    method TrimBuffer(merged: seq<Sample>) returns (out: seq<Sample>)
      ensures out == LastN(Limit(maxBuffer), merged)
      ensures |out| <= |merged| && out == merged[|merged| - |out|..]
      ensures var max := if maxBuffer > 0 then maxBuffer else 1000; |out| == if |merged| <= max then |merged| else max
    {
      var max := maxBuffer;
      if max <= 0 {
        max := DEFAULT_MAX_BUFFER;
      }
      if |merged| <= max {
        return merged;
      }
      var dropped := |merged| - max;
      out := merged[dropped..];
    }

    /** The second critical section of Send, once the outcome is known: what is to be retried goes in front of
        what has been buffered in the meantime. */
    method Settle(pending: seq<Sample>, reply: Reply) returns (err: bool)
      requires Valid()
      modifies this
      ensures Valid() && err == !Judge(reply).Accepted?
      ensures buffer == if Judge(reply).Retry? then LastN(Limit(maxBuffer), pending + old(buffer)) else old(buffer)
      ensures !reply.Status? || reply.code == 408 || reply.code == 429 || reply.code >= 500 ==>
                buffer == LastN(Limit(maxBuffer), pending + old(buffer)) && err
      ensures reply.Status? && reply.code != 408 && reply.code != 429 && reply.code < 500 ==>
                buffer == old(buffer) && (err <==> reply.code != 202)
    {
      match reply
      case MarshalFailed =>
        buffer := TrimBuffer(pending + buffer);
        err := true;
      case RequestFailed =>
        buffer := TrimBuffer(pending + buffer);
        err := true;
      case NetworkFailed =>
        buffer := TrimBuffer(pending + buffer);
        err := true;
      case Status(code) =>
        if code != 202 {
          if IsTransientStatus(code) {
            buffer := TrimBuffer(pending + buffer);
          }
          return true;
        }
        err := false;
    }

    /** A Send that no other overlaps. */
    method Send(samples: seq<Sample>, reply: Reply) returns (err: bool)
      requires Valid()
      modifies this
      ensures Valid() && buffer == Buffered(Limit(maxBuffer), old(buffer), Call(samples, reply))
      ensures err <==> old(buffer) + samples != [] && reply != Status(202)
      ensures !reply.Status? || reply.code == 408 || reply.code == 429 || reply.code >= 500 ==>
                buffer == LastN(Limit(maxBuffer), old(buffer) + samples)
      ensures reply.Status? && reply.code != 408 && reply.code != 429 && reply.code < 500 ==> buffer == []
    {
      var pending := TakePending(samples);
      if |pending| == 0 {
        return false;
      }
      assert pending + [] == pending;
      err := Settle(pending, reply);
    }

    /** Close, after the sends it waits for: one last attempt, which loses nothing when it is to be retried. */
    method Close(reply: Reply) returns (err: bool)
      requires Valid()
      modifies this
      ensures Valid() && err == (old(buffer) != [] && reply != Status(202))
      ensures buffer == if !reply.Status? || reply.code == 408 || reply.code == 429 || reply.code >= 500
                        then old(buffer) else []
    {
      var remaining := buffer;
      buffer := [];
      if |remaining| == 0 {
        return false;
      }
      assert [] + remaining == remaining;
      err := Send(remaining, reply);
    }
  }

  // ---- Sends one after another

  datatype Call = Call(samples: seq<Sample>, reply: Reply)

  function Buffered(limit: nat, buffer: seq<Sample>, c: Call): seq<Sample> {
    if Judge(c.reply).Retry? then LastN(limit, buffer + c.samples) else []
  }

  /** The buffer after a run of calls, starting empty. */
  function AfterCalls(limit: nat, calls: seq<Call>): seq<Sample> {
    if calls == [] then [] else Buffered(limit, AfterCalls(limit, calls[..|calls| - 1]), calls[|calls| - 1])
  }

  function Submitted(calls: seq<Call>): seq<Sample> {
    if calls == [] then [] else Submitted(calls[..|calls| - 1]) + calls[|calls| - 1].samples
  }

  /** Everything submitted since the last request that was not to be retried. */
  function SinceSettled(calls: seq<Call>): seq<Sample> {
    if calls == [] || !Judge(calls[|calls| - 1].reply).Retry? then []
    else SinceSettled(calls[..|calls| - 1]) + calls[|calls| - 1].samples
  }

  /** The samples the server answered for, with a success or a permanent error. */
  function Settled(limit: nat, calls: seq<Call>): seq<Sample> {
    if calls == [] then []
    else
      var rest, c := calls[..|calls| - 1], calls[|calls| - 1];
      Settled(limit, rest) + if Judge(c.reply).Retry? then [] else AfterCalls(limit, rest) + c.samples
  }

  /** The samples trimmed away before the last settled request. */
  function Forgotten(limit: nat, calls: seq<Call>): seq<Sample> {
    if calls == [] then []
    else
      var rest, c := calls[..|calls| - 1], calls[|calls| - 1];
      var since := SinceSettled(rest);
      Forgotten(limit, rest)
      + if Judge(c.reply).Retry? then [] else since[..|since| - |LastN(limit, since)|]
  }

  /** With non-overlapping sends the buffer is exactly the newest samples, up to the limit, of those submitted
      since the last settled request, in the order of submission. */
  lemma {:induction false} BufferIsNewest(limit: nat, calls: seq<Call>)
    ensures AfterCalls(limit, calls) == LastN(limit, SinceSettled(calls))
  {
    if calls != [] {
      var rest, c := calls[..|calls| - 1], calls[|calls| - 1];
      BufferIsNewest(limit, rest);
      LastNAbsorbs(limit, SinceSettled(rest), c.samples);
    }
  }

  /** The samples never settled are those trimmed before the last settled request and those submitted since. */
  lemma {:induction false} NeverSettled(limit: nat, calls: seq<Call>)
    ensures multiset(Submitted(calls)) ==
            multiset(Settled(limit, calls)) + multiset(Forgotten(limit, calls)) + multiset(SinceSettled(calls))
    ensures Subseq(Forgotten(limit, calls) + SinceSettled(calls), Submitted(calls))
  {
    if calls == [] {
    } else {
      var rest, c := calls[..|calls| - 1], calls[|calls| - 1];
      NeverSettled(limit, rest);
      BufferIsNewest(limit, rest);
      if Judge(c.reply).Retry? {
        Joined(Forgotten(limit, rest), SinceSettled(rest), c.samples, Submitted(rest));
        assert Forgotten(limit, rest) + [] == Forgotten(limit, rest);
      } else {
        hide Subseq;
        Trimmed(limit, Forgotten(limit, rest), SinceSettled(rest), c.samples, Submitted(rest));
        assert Forgotten(limit, calls) + [] == Forgotten(limit, calls);
      }
    }
  }

  lemma Joined<T>(past: seq<T>, since: seq<T>, more: seq<T>, whole: seq<T>)
    requires Subseq(past + since, whole)
    ensures Subseq(past + (since + more), whole + more)
  {
    SubseqRefl(more);
    SubseqConcat(past + since, whole, more, more);
    assert past + (since + more) == past + since + more;
  }

  lemma Trimmed<T>(limit: nat, past: seq<T>, since: seq<T>, more: seq<T>, whole: seq<T>)
    requires Subseq(past + since, whole)
    ensures var gone := since[..|since| - |LastN(limit, since)|];
            Subseq(past + gone, whole + more) && since == gone + LastN(limit, since)
  {
    hide Subseq;
    var gone, kept := since[..|since| - |LastN(limit, since)|], LastN(limit, since);
    assert past + gone + kept == past + since;
    SubseqFront(past + gone, kept, whole);
    SubseqNil(more);
    SubseqConcat(past + gone, whole, [], more);
    assert past + gone + [] == past + gone;
  }

  /** Before every settled request, no more samples than the limit had come since the one before. */
  ghost predicate NeverOverfull(limit: nat, calls: seq<Call>) {
    forall i :: 0 <= i < |calls| && !Judge(calls[i].reply).Retry? ==> |SinceSettled(calls[..i])| <= limit
  }

  lemma OverfullStep(limit: nat, calls: seq<Call>)
    requires calls != []
    ensures var n := |calls| - 1;
            NeverOverfull(limit, calls) <==>
            NeverOverfull(limit, calls[..n]) && (Judge(calls[n].reply).Retry? || |SinceSettled(calls[..n])| <= limit)
  {
    hide SinceSettled, Judge;
    var n := |calls| - 1;
    assert forall i :: 0 <= i < n ==> calls[..n][..i] == calls[..i] && calls[..n][i] == calls[i];
  }

  lemma {:induction false} ForgottenNothing(limit: nat, calls: seq<Call>)
    ensures Forgotten(limit, calls) == [] <==> NeverOverfull(limit, calls)
  {
    if calls == [] {
    } else {
      hide NeverOverfull, SinceSettled;
      var n := |calls| - 1;
      ForgottenNothing(limit, calls[..n]);
      OverfullStep(limit, calls);
    }
  }

  /** Samples trimmed before a settled request never come back. So the buffer is the newest of all samples
      never settled if and only if no settled request came after more samples than the limit, or as much as the
      buffer holds has been submitted since. */
  lemma NewestUnsettled(limit: nat, calls: seq<Call>)
    requires limit > 0
    ensures AfterCalls(limit, calls) == LastN(limit, Forgotten(limit, calls) + SinceSettled(calls))
            <==> NeverOverfull(limit, calls) || |SinceSettled(calls)| >= limit
  {
    BufferIsNewest(limit, calls);
    ForgottenNothing(limit, calls);
    var past, since := Forgotten(limit, calls), SinceSettled(calls);
    if past == [] {
      assert past + since == since;
    } else if |since| >= limit {
      assert LastN(limit, past + since) == LastN(limit, since);
    } else {
      assert |LastN(limit, past + since)| > |since|;
    }
  }

  /** It does fail: of two samples refused for now with room for one, the older is never settled, and yet it is gone
      once the newer has been accepted. */
  lemma OlderIsGone(x: Sample, y: Sample) returns (calls: seq<Call>)
    ensures calls == [Call([x, y], NetworkFailed), Call([], Status(202))]
    ensures AfterCalls(1, calls) == [] && Forgotten(1, calls) + SinceSettled(calls) == [x]
  {
    calls := [Call([x, y], NetworkFailed), Call([], Status(202))];
    var first := calls[..1];
    assert first[..0] == [] && calls[..|calls| - 1] == first;
    assert SinceSettled(first) == SinceSettled([]) + [x, y] == [x, y];
    assert Forgotten(1, first) == [];
    assert [x, y][..1] == [x];
  }

  // ---- Overlapping sends

  /** pending lists the sends that have taken their snapshot and not yet settled, closing what Close has taken
      out of the buffer and not yet sent. */
  datatype State = State(
    buffer: seq<Sample>,
    pending: seq<seq<Sample>>,
    closing: Option<seq<Sample>>,
    submitted: multiset<Sample>,
    accepted: multiset<Sample>,
    rejected: multiset<Sample>,
    trimmed: multiset<Sample>)

  datatype Step = Begin(samples: seq<Sample>) | Finish(i: nat, reply: Reply) | CloseTake | CloseSend

  predicate Enabled(s: State, a: Step) {
    match a
    case Begin(_) => true
    case Finish(i, _) => i < |s.pending|
    case CloseTake => s.closing.None?
    case CloseSend => s.closing.Some?
  }

  /** TakePending, and an early return when there is nothing to send. */
  function Started(s: State, samples: seq<Sample>): State {
    var p := s.buffer + samples;
    s.(buffer := [], pending := if p == [] then s.pending else s.pending + [p])
  }

  function Apply(limit: nat, s: State, a: Step): State
    requires Enabled(s, a)
  {
    match a
    case Begin(samples) => Started(s.(submitted := s.submitted + multiset(samples)), samples)
    case Finish(i, reply) =>
      var p := s.pending[i];
      var rest := s.(pending := s.pending[..i] + s.pending[i + 1..]);
      var merged := p + s.buffer;
      (match Judge(reply)
       case Accepted => rest.(accepted := s.accepted + multiset(p))
       case Rejected => rest.(rejected := s.rejected + multiset(p))
       case Retry => rest.(
         buffer := LastN(limit, merged),
         trimmed := s.trimmed + multiset(merged[..|merged| - |LastN(limit, merged)|])))
    case CloseTake => s.(buffer := [], closing := Some(s.buffer))
    case CloseSend => Started(s.(closing := None), s.closing.value)
  }

  function InFlight(s: State): multiset<Sample> {
    multiset(Flatten(s.pending)) + if s.closing.Some? then multiset(s.closing.value) else multiset{}
  }

  /** Where samples end up, and where they are on their way. */
  function Done(s: State): multiset<Sample> {
    s.accepted + s.rejected + s.trimmed
  }

  function Held(s: State): multiset<Sample> {
    multiset(s.buffer) + InFlight(s)
  }

  ghost predicate Conserved(limit: nat, s: State) {
    |s.buffer| <= limit && s.submitted == Done(s) + Held(s)
  }

  lemma StartedKeeps(s: State, samples: seq<Sample>)
    ensures Held(Started(s, samples)) == Held(s) + multiset(samples)
    ensures Done(Started(s, samples)) == Done(s)
  {
    FlattenSnoc(s.pending, s.buffer + samples);
  }

  lemma FinishKeeps(limit: nat, s: State, i: nat, reply: Reply)
    requires i < |s.pending| && Conserved(limit, s)
    ensures Conserved(limit, Apply(limit, s, Finish(i, reply)))
  {
    hide Flatten, LastN;
    TakeOut(s.pending, i);
    var p, rest := s.pending[i], s.pending[..i] + s.pending[i + 1..];
    var gone, kept := Cut(limit, p, s.buffer);
    var closing: multiset := if s.closing.Some? then multiset(s.closing.value) else multiset{};
    Moved(s.accepted, s.rejected, s.trimmed, multiset(s.buffer), closing, multiset(p), multiset(Flatten(rest)),
          multiset(gone), multiset(kept));
    match Judge(reply)
    case Accepted =>
    case Rejected =>
    case Retry =>
  }

  lemma Cut<T>(limit: nat, p: seq<T>, buffer: seq<T>) returns (gone: seq<T>, kept: seq<T>)
    ensures kept == LastN(limit, p + buffer) && gone == (p + buffer)[..|p + buffer| - |kept|]
    ensures multiset(p) + multiset(buffer) == multiset(gone) + multiset(kept)
  {
    var merged := p + buffer;
    kept := LastN(limit, merged);
    gone := merged[..|merged| - |kept|];
    assert merged == gone + kept;
    assert multiset(p + buffer) == multiset(gone + kept);
  }

  /** Samples p leave the pending ones for one of four places. */
  lemma Moved<T(!new)>(accepted: multiset<T>, rejected: multiset<T>, trimmed: multiset<T>, buffer: multiset<T>,
                 closing: multiset<T>, p: multiset<T>, rest: multiset<T>, gone: multiset<T>, kept: multiset<T>)
    requires p + buffer == gone + kept
    ensures var all := (accepted + rejected + trimmed) + (buffer + ((p + rest) + closing));
            && (accepted + p + rejected + trimmed) + (buffer + (rest + closing)) == all
            && (accepted + (rejected + p) + trimmed) + (buffer + (rest + closing)) == all
            && (accepted + rejected + (trimmed + gone)) + (kept + (rest + closing)) == all
  {
    forall x: T
      ensures p[x] + buffer[x] == gone[x] + kept[x]
    {
      assert (p + buffer)[x] == (gone + kept)[x];
    }
  }

  lemma TakeOut<T>(ss: seq<seq<T>>, i: nat)
    requires i < |ss|
    ensures multiset(Flatten(ss)) == multiset(ss[i]) + multiset(Flatten(ss[..i] + ss[i + 1..]))
  {
    hide Flatten;
    FlattenAround(ss, i, ss[i]);
    FlattenConcat(ss[..i], ss[i + 1..]);
    assert ss[i := ss[i]] == ss;
  }

  lemma BeginKeeps(limit: nat, s: State, samples: seq<Sample>)
    requires Conserved(limit, s)
    ensures Conserved(limit, Apply(limit, s, Begin(samples)))
  {
    var t := s.(submitted := s.submitted + multiset(samples));
    StartedKeeps(t, samples);
    assert Done(t) == Done(s) && Held(t) == Held(s);
    hide Held, Done;
    assert Done(s) + Held(s) + multiset(samples) == Done(s) + (Held(s) + multiset(samples));
  }

  lemma CloseKeeps(limit: nat, s: State, a: Step)
    requires (a.CloseTake? || a.CloseSend?) && Enabled(s, a) && Conserved(limit, s)
    ensures Conserved(limit, Apply(limit, s, a))
  {
    if a.CloseTake? {
      assert Held(Apply(limit, s, a)) == Held(s);
    } else {
      var t := s.(closing := None);
      StartedKeeps(t, s.closing.value);
      assert Held(s) == Held(t) + multiset(s.closing.value);
    }
  }

  lemma StepKeeps(limit: nat, s: State, a: Step)
    requires Enabled(s, a) && Conserved(limit, s)
    ensures Conserved(limit, Apply(limit, s, a))
  {
    hide Held, Done, Conserved;
    match a
    case Begin(samples) => BeginKeeps(limit, s, samples);
    case Finish(i, reply) => FinishKeeps(limit, s, i, reply);
    case CloseTake => CloseKeeps(limit, s, a);
    case CloseSend => CloseKeeps(limit, s, a);
  }

  /** A send that starts and settles with no other in between is one call of the sequential account. */
  lemma SendAlone(limit: nat, s: State, c: Call)
    requires s.pending == [] && s.buffer + c.samples != []
    ensures var begun := Apply(limit, s, Begin(c.samples));
            && Enabled(begun, Finish(0, c.reply))
            && Apply(limit, begun, Finish(0, c.reply)).buffer == Buffered(limit, s.buffer, c)
  {
    var p := s.buffer + c.samples;
    assert p + [] == p;
  }

  /** Where the samples of an overlapping send go, by what came back: accepted on 202, back into the buffer in front
      of what came in the meantime when nothing came back or on 408, 429 and 5xx, and otherwise rejected. */
  lemma FinishByCode(limit: nat, s: State, i: nat, reply: Reply)
    requires i < |s.pending|
    ensures var p, now := s.pending[i], Apply(limit, s, Finish(i, reply));
            && now.pending == s.pending[..i] + s.pending[i + 1..] && now.submitted == s.submitted
            && now.accepted == s.accepted + (if reply == Status(202) then multiset(p) else multiset{})
            && if !reply.Status? || reply.code == 408 || reply.code == 429 || reply.code >= 500 then
                 && now.rejected == s.rejected && now.buffer == LastN(limit, p + s.buffer)
                 && multiset(p) + multiset(s.buffer) + s.trimmed == now.trimmed + multiset(now.buffer)
               else
                 && now.buffer == s.buffer && now.trimmed == s.trimmed
                 && now.rejected == s.rejected + (if reply == Status(202) then multiset{} else multiset(p))
  {
    var gone, kept := Cut(limit, s.pending[i], s.buffer);
  }

  /** No other step settles or trims anything. */
  lemma OthersSettleNothing(limit: nat, s: State, a: Step)
    requires Enabled(s, a) && !a.Finish?
    ensures var now := Apply(limit, s, a);
            && now.accepted == s.accepted && now.rejected == s.rejected && now.trimmed == s.trimmed
            && now.submitted == s.submitted + if a.Begin? then multiset(a.samples) else multiset{}
  {
  }

  const INITIAL := State([], [], None, multiset{}, multiset{}, multiset{}, multiset{})

  ghost predicate Run(limit: nat, steps: seq<Step>, s: State) {
    if steps == [] then s == INITIAL
    else
      var n := |steps| - 1;
      exists before ::
        Run(limit, steps[..n], before) && Enabled(before, steps[n]) && s == Apply(limit, before, steps[n])
  }

  /** However sends and closes overlap, every submitted sample is accepted, permanently rejected, trimmed,
      buffered or in flight, none twice; and the buffer never exceeds its limit. */
  lemma {:induction false} EveryOverlap(limit: nat, steps: seq<Step>, s: State)
    requires Run(limit, steps, s)
    ensures |s.buffer| <= limit
    ensures s.submitted == (s.accepted + s.rejected + s.trimmed) + (multiset(s.buffer) + InFlight(s))
    decreases |steps|
  {
    if steps != [] {
      hide Apply, Enabled, InFlight;
      var n := |steps| - 1;
      var before :| Run(limit, steps[..n], before) && Enabled(before, steps[n]) && s == Apply(limit, before, steps[n]);
      EveryOverlap(limit, steps[..n], before);
      StepKeeps(limit, before, steps[n]);
    }
  }
}
