/** The batching gRPC sender (internal/sender/sender.go, internal/sender/batch.go): what is handed to the stream,
    over any number of connections, failures and reconnects. */
module Sender {
  import opened Seqs
  import opened Points

  /** The sequence number and the counters are unsigned 64-bit words. */
  const WORD := 0x1_0000_0000_0000_0000

  /** Backoff before a reconnect, in seconds. */
  const INITIAL_BACKOFF := 1
  const MAX_BACKOFF := 60

  function Word(n: nat): nat {
    n % WORD
  }

  class Batcher {
    const maxSize: nat
    var points: seq<Point>

    constructor (maxSize: nat)
      ensures this.maxSize == maxSize && points == []
    {
      this.maxSize, points := maxSize, [];
    }

    method Add(point: Point) returns (full: bool)
      modifies this
      ensures points == old(points) + [point] && full == (|points| >= maxSize)
    {
      points := points + [point];
      full := |points| >= maxSize;
    }

    /** The empty list stands for the source's nil. */
    method Flush() returns (out: seq<Point>)
      modifies this
      ensures out == old(points) && points == []
    {
      out := points;
      points := [];
    }
  }

  /** A batch passed to stream.Send, and whether Send took it. points is what the messages were made from. */
  datatype Batch = Batch(number: nat, messages: seq<Proto>, ok: bool, points: seq<Point>)

  /** What the select of the send loop may pick, and an acknowledgement of a rejected batch. */
  datatype Event = Input(p: Point) | InputClosed | Tick | AckDied | ContextDone | RejectingAck

  /** One turn of Start's loop: whether dialling and opening the stream succeed, what then happens, and whether
      the context ends before or during the wait that follows a failure. */
  datatype Attempt = Attempt(dial: bool, open: bool, events: seq<Event>, doneBefore: bool, doneDuring: bool)

  /** How runOnce ended. Running means that the events so far have not ended it. */
  datatype Ended = NoConnection | Clean | Broken | Running

  function ToWire(ps: seq<Point>): (r: seq<Proto>)
    ensures |r| == |ps| && forall i :: 0 <= i < |ps| ==> r[i] == PointToProto(ps[i])
  {
    seq(|ps|, i requires 0 <= i < |ps| => PointToProto(ps[i]))
  }

  function Entering(event: Event): seq<Point> {
    if event.Input? then [event.p] else []
  }

  /** The points of the input events, in order. */
  function Inputs(events: seq<Event>): seq<Point> {
    if events == [] then [] else Inputs(events[..|events| - 1]) + Entering(events[|events| - 1])
  }

  /** One round of Start: how the connection ended, the events it got through, and the seconds slept after it. */
  datatype Round = Round(end: Ended, through: seq<Event>, wait: Option<nat>)

  /** The inputs of what several connections got through. */
  function TakenOver(rounds: seq<Round>): seq<Point> {
    if rounds == [] then [] else TakenOver(rounds[..|rounds| - 1]) + Inputs(rounds[|rounds| - 1].through)
  }

  /** How many rounds got as far as a stream. */
  function Sessions(rounds: seq<Round>): (n: nat)
    ensures n <= |rounds|
  {
    if rounds == [] then 0
    else Sessions(rounds[..|rounds| - 1]) + if rounds[|rounds| - 1].end.NoConnection? then 0 else 1
  }

  /** What a round tells the connection callback: up and down for a stream, and down once more before a wait. */
  function Told(r: Round): seq<bool> {
    (match r.end
     case NoConnection => []
     case Running => [true]
     case Clean => [true, false]
     case Broken => [true, false])
    + if r.wait.Some? then [false] else []
  }

  function AllTold(rounds: seq<Round>): seq<bool> {
    if rounds == [] then [] else AllTold(rounds[..|rounds| - 1]) + Told(rounds[|rounds| - 1])
  }

  /** A stream is opened exactly when dialling and opening succeed, and there is a wait after a failure unless
      the context is done. */
  ghost predicate Follows(a: Attempt, r: Round) {
    && r.through <= a.events
    && (r.end.NoConnection? <==> !(a.dial && a.open))
    && (r.wait.Some? <==> (r.end.NoConnection? || r.end.Broken?) && !a.doneBefore)
  }

  /** Whether Start goes round again: after a failure, unless the context is done. */
  predicate GoesOn(a: Attempt, e: Ended) {
    (e.NoConnection? || e.Broken?) && !a.doneBefore && !a.doneDuring
  }

  /** What a run of Start goes through: every round but the last is followed by another, and the wait after a
      round is decided by the streak of attempts without a connection before it. */
  ghost predicate Chronicle(attempts: seq<Attempt>, rounds: seq<Round>) {
    && |rounds| <= |attempts|
    && (forall i :: 0 <= i < |rounds| ==> Follows(attempts[i], rounds[i]))
    && (forall i :: 0 <= i < |rounds| && rounds[i].wait.Some? ==>
          rounds[i].wait.value == Backoff(Streak(attempts[..i])))
    && (forall i :: 0 <= i < |rounds| - 1 ==> GoesOn(attempts[i], rounds[i].end))
  }

  /** The points of all batches, or of those that were sent. */
  ghost function Handed(bs: seq<Batch>): seq<Point> {
    if bs == [] then [] else Handed(bs[..|bs| - 1]) + bs[|bs| - 1].points
  }

  ghost function Sent(bs: seq<Batch>): seq<Point> {
    if bs == [] then [] else Sent(bs[..|bs| - 1]) + if bs[|bs| - 1].ok then bs[|bs| - 1].points else []
  }

  ghost function Failed(bs: seq<Batch>): (n: nat)
    ensures n <= |bs|
  {
    if bs == [] then 0 else Failed(bs[..|bs| - 1]) + if bs[|bs| - 1].ok then 0 else 1
  }

  /** Batches carry contiguous numbers from 1, between one point and a full batch, and the messages of their
      points. */
  ghost predicate WellNumbered(bs: seq<Batch>, maxSize: nat) {
    forall i :: 0 <= i < |bs| ==>
      && bs[i].number == Word(i + 1)
      && 1 <= |bs[i].points| <= Larger(1, maxSize)
      && bs[i].messages == ToWire(bs[i].points)
  }

  /** Sending loses whole batches and nothing else: what was sent is an in-order selection of what was handed
      over, short of it by at most a full batch for each failure, and equal to it exactly when nothing failed. */
  lemma SentOfHanded(bs: seq<Batch>, maxSize: nat)
    requires WellNumbered(bs, maxSize)
    ensures Subseq(Sent(bs), Handed(bs))
    ensures |Sent(bs)| + Failed(bs) <= |Handed(bs)| <= |Sent(bs)| + Failed(bs) * Larger(1, maxSize)
    ensures Sent(bs) == Handed(bs) <==> Failed(bs) == 0
  {
    SentInOrder(bs);
    SentSize(bs, Larger(1, maxSize));
    SubseqLength(Sent(bs), Handed(bs));
  }

  lemma {:induction false} SentInOrder(bs: seq<Batch>)
    ensures Subseq(Sent(bs), Handed(bs))
  {
    hide Subseq;
    SubseqNil<Point>([]);
    if bs != [] {
      var rest, b := bs[..|bs| - 1], bs[|bs| - 1];
      SentInOrder(rest);
      SubseqRefl(b.points);
      SubseqNil(b.points);
      SubseqConcat(Sent(rest), Handed(rest), if b.ok then b.points else [], b.points);
    }
  }

  lemma {:induction false} SentSize(bs: seq<Batch>, full: nat)
    requires forall b :: b in bs ==> 1 <= |b.points| <= full
    ensures |Sent(bs)| + Failed(bs) <= |Handed(bs)| <= |Sent(bs)| + Failed(bs) * full
    ensures |Sent(bs)| == |Handed(bs)| <==> Failed(bs) == 0
  {
    if bs != [] {
      var rest, b := bs[..|bs| - 1], bs[|bs| - 1];
      SentSize(rest, full);
      assert b in bs;
      if b.ok {
      } else {
        assert (Failed(rest) + 1) * full == Failed(rest) * full + full;
      }
    }
  }

  lemma {:induction false} HandOver(bs: seq<Batch>, b: Batch, maxSize: nat)
    requires WellNumbered(bs, maxSize) && b.number == Word(|bs| + 1)
    requires 1 <= |b.points| <= Larger(1, maxSize) && b.messages == ToWire(b.points)
    ensures WellNumbered(bs + [b], maxSize)
    ensures Handed(bs + [b]) == Handed(bs) + b.points
    ensures Sent(bs + [b]) == Sent(bs) + if b.ok then b.points else []
    ensures Failed(bs + [b]) == Failed(bs) + if b.ok then 0 else 1
  {
    assert (bs + [b])[..|bs|] == bs;
  }

  lemma TakeEvent(events: seq<Event>, k: nat, origin: seq<Point>, was: seq<Point>, now: seq<Point>)
    requires k < |events| && was == origin + Inputs(events[..k]) && now == was + Entering(events[k])
    ensures now == origin + Inputs(events[..k + 1])
  {
    assert events[..k + 1][..k] == events[..k];
  }

  /** A word counter goes on counting modulo its width. */
  lemma NextWord(n: nat, k: nat)
    ensures Word(Word(n) + k) == Word(n + k)
  {
    assert n == (n / WORD) * WORD + n % WORD;
    SameWord(n + k, n % WORD + k, n / WORD);
  }

  /** Numbers and counters start again from 0 after 2^64 - 1. */
  lemma WordWraps(n: nat)
    ensures n < 0x1_0000_0000_0000_0000 ==> Word(n) == n
    ensures Word(n + 0x1_0000_0000_0000_0000) == Word(n)
  {
    SameWord(n + 0x1_0000_0000_0000_0000, n, 1);
  }

  lemma SameWord(a: nat, b: nat, q: int)
    requires a == b + q * WORD
    ensures a % WORD == b % WORD
  {
    assert (a / WORD - b / WORD - q) * WORD == b % WORD - a % WORD;
  }

  /** Whether the connection callback is never told of a new connection twice without a loss in between. */
  ghost predicate Alternates(notices: seq<bool>) {
    forall i :: 0 < i < |notices| ==> !(notices[i - 1] && notices[i])
  }

  class Sender {
    const batcher: Batcher
    var seqNum: nat
    var batchesSent: nat
    var pointsSent: nat
    var errors: nat
    var connected: bool
    /** What onConnChange was called with. */
    var notices: seq<bool>

    /** Points taken off the input channel, batches handed to streams, rejecting acknowledgements. */
    ghost var received: seq<Point>
    ghost var handed: seq<Batch>
    ghost var rejections: nat

    ghost predicate Valid()
      reads this, batcher
    {
      && |batcher.points| < Larger(1, batcher.maxSize)
      && Tallied()
      && received == Handed(handed) + batcher.points
    }

    ghost predicate Tallied()
      reads this
    {
      && WellNumbered(handed, batcher.maxSize)
      && seqNum == Word(|handed|)
      && batchesSent == Word(|handed| - Failed(handed))
      && pointsSent == Word(|Sent(handed)|)
      && errors == Word(Failed(handed) + rejections)
      && Alternates(notices)
      && connected == (notices != [] && notices[|notices| - 1])
    }

    constructor (batchSize: nat)
      ensures Valid() && fresh(batcher) && batcher.maxSize == batchSize
      ensures received == [] && handed == [] && notices == [] && !connected
    {
      batcher := new Batcher(batchSize);
      seqNum, batchesSent, pointsSent, errors, connected, notices := 0, 0, 0, 0, false, [];
      received, handed, rejections := [], [], 0;
    }

    method NotifyConnChange(up: bool)
      requires Valid() && !(up && connected)
      modifies this`connected, this`notices
      ensures Valid() && connected == up && notices == old(notices) + [up]
    {
      connected := up;
      notices := notices + [up];
    }

    /** sendBatchWithError. The sequence number is used up whether or not the stream takes the batch. */
    method SendBatch(points: seq<Point>) returns (ok: bool)
      requires Tallied() && 1 <= |points| <= Larger(1, batcher.maxSize)
      modifies this`seqNum, this`batchesSent, this`pointsSent, this`errors, this`handed
      ensures Tallied() && Handed(handed) == old(Handed(handed)) + points
      ensures handed == old(handed) + [Batch(Word(|old(handed)| + 1), ToWire(points), ok, points)]
      ensures Failed(handed) == old(Failed(handed)) + if ok then 0 else 1
    {
      hide Handed, Sent, Failed, WellNumbered, Alternates, Word, ToWire;
      ghost var before := handed;
      NextWord(|handed|, 1);
      seqNum := Word(seqNum + 1);
      var messages := ToProtoBatch(points);
      ok := *;
      handed := handed + [Batch(seqNum, messages, ok, points)];
      HandOver(before, Batch(seqNum, messages, ok, points), batcher.maxSize);
      if !ok {
        NextWord(Failed(before) + rejections, 1);
        errors := Word(errors + 1);
        return;
      }
      NextWord(|before| - Failed(before), 1);
      NextWord(|Sent(before)|, |points|);
      batchesSent := Word(batchesSent + 1);
      pointsSent := Word(pointsSent + |points|);
    }

    /** toProtoBatch. */
    static method ToProtoBatch(points: seq<Point>) returns (messages: seq<Proto>)
      ensures messages == ToWire(points)
    {
      messages := [];
      for i := 0 to |points|
        invariant messages == ToWire(points[..i])
      {
        messages := messages + [PointToProto(points[i])];
      }
      assert points[..|points|] == points;
    }

    /** flushWithError, and flush when the result is ignored. An empty batcher sends nothing. */
    method Flush() returns (ok: bool)
      requires Tallied() && |batcher.points| <= Larger(1, batcher.maxSize)
      requires received == Handed(handed) + batcher.points
      modifies batcher, this`seqNum, this`batchesSent, this`pointsSent, this`errors, this`handed
      ensures Valid() && batcher.points == []
      ensures Failed(handed) == old(Failed(handed)) + if ok then 0 else 1
      ensures old(handed) <= handed && |handed| == |old(handed)| + if old(batcher.points) != [] then 1 else 0
      ensures old(batcher.points) == [] ==> ok
    {
      hide Handed, Sent, Failed, WellNumbered, Alternates, Word, ToWire;
      var points := batcher.Flush();
      ok := true;
      if points != [] {
        ok := SendBatch(points);
      }
    }

    /** One turn of the send loop's select: none when the loop goes on, otherwise how runOnce returns. */
    method Step(event: Event) returns (r: Option<Ended>)
      requires Valid() && connected
      modifies batcher, this`seqNum, this`batchesSent, this`pointsSent, this`errors, this`received, this`handed,
               this`rejections
      ensures Valid()
      ensures received == old(received) + Entering(event)
      ensures old(handed) <= handed
      ensures event.Input? && |old(batcher.points)| + 1 < batcher.maxSize ==>
                batcher.points == old(batcher.points) + [event.p] && handed == old(handed) && r.None?
      ensures event.Input? && |old(batcher.points)| + 1 >= batcher.maxSize ==>
                batcher.points == [] && |handed| == |old(handed)| + 1
      ensures event.Tick? || event.InputClosed? || event.ContextDone? ==>
                batcher.points == [] && |handed| == |old(handed)| + if old(batcher.points) == [] then 0 else 1
      ensures event.AckDied? || event.RejectingAck? ==>
                batcher.points == old(batcher.points) && handed == old(handed)
      ensures rejections == old(rejections) + if event.RejectingAck? then 1 else 0
      ensures r == None || r == Some(Clean) || r == Some(Broken)
      ensures r == Some(Clean) <==> event.InputClosed? || event.ContextDone?
      ensures r == Some(Broken) <==>
                event.AckDied? || ((event.Input? || event.Tick?) && Failed(handed) > old(Failed(handed)))
      ensures old(Failed(handed)) <= Failed(handed) <= old(Failed(handed)) + if r.None? then 0 else 1
    {
      hide Handed, Sent, Failed, WellNumbered, Alternates, Word;
      r := None;
      match event
      case Input(p) =>
        received := received + [p];
        var full := batcher.Add(p);
        if full {
          var ok := Flush();
          r := if ok then None else Some(Broken);
        }
      case Tick =>
        if |batcher.points| > 0 {
          var ok := Flush();
          r := if ok then None else Some(Broken);
        }
      case AckDied =>
        r := Some(Broken);
      case InputClosed =>
        var ok := Flush();
        r := Some(Clean);
      case ContextDone =>
        var ok := Flush();
        r := Some(Clean);
      case RejectingAck =>
        NextWord(Failed(handed) + rejections, 1);
        rejections := rejections + 1;
        errors := Word(errors + 1);
    }

    /** The send loop of runOnce. No batch is lost while it goes on, and at most one as it ends. */
    method Serve(events: seq<Event>) returns (e: Ended, used: nat)
      requires Valid() && connected
      modifies batcher, this`seqNum, this`batchesSent, this`pointsSent, this`errors, this`received, this`handed,
               this`rejections
      ensures Valid()
      ensures used <= |events| && received == old(received) + Inputs(events[..used])
      ensures !e.NoConnection?
      ensures e.Running? ==> used == |events|
      ensures e.Clean? ==>
                used > 0 && (events[used - 1].InputClosed? || events[used - 1].ContextDone?) && batcher.points == []
      ensures e.Broken? ==> used > 0 && (events[used - 1].AckDied? || Failed(handed) == old(Failed(handed)) + 1)
      ensures forall i :: 0 <= i < used - (if e.Running? then 0 else 1) ==>
                !events[i].InputClosed? && !events[i].ContextDone? && !events[i].AckDied?
      ensures Failed(handed) <= old(Failed(handed)) + if e.Running? then 0 else 1
    {
      assert events[..0] == [] && Inputs([]) == [];
      hide Handed, Failed, Sent, WellNumbered, Alternates, Word, Inputs, Tallied, Entering;
      e, used := Running, 0;
      for i := 0 to |events|
        invariant Valid() && connected && used == i
        invariant received == old(received) + Inputs(events[..i])
        invariant Failed(handed) == old(Failed(handed))
        invariant forall j :: 0 <= j < i ==>
                    !events[j].InputClosed? && !events[j].ContextDone? && !events[j].AckDied?
      {
        ghost var was := received;
        var r := Step(events[i]);
        TakeEvent(events, i, old(received), was, received);
        used := used + 1;
        if r.Some? {
          return r.value, used;
        }
      }
    }

    /** runOnce: one connection. At most one batch is lost in it, and none while it lasts. */
    method RunOnce(a: Attempt) returns (e: Ended, used: nat)
      requires Valid() && !connected
      modifies this, batcher
      ensures Valid()
      ensures e.NoConnection? <==> !(a.dial && a.open)
      ensures used <= |a.events| && received == old(received) + Inputs(a.events[..used])
      ensures e.NoConnection? ==> used == 0 && handed == old(handed)
      ensures e.Running? ==> used == |a.events|
      ensures e.Clean? ==>
                && used > 0 && (a.events[used - 1].InputClosed? || a.events[used - 1].ContextDone?)
                && batcher.points == []
      ensures e.Broken? ==> used > 0 && (a.events[used - 1].AckDied? || Failed(handed) == old(Failed(handed)) + 1)
      ensures forall i :: 0 <= i < used - (if e.Running? then 0 else 1) ==>
                !a.events[i].InputClosed? && !a.events[i].ContextDone? && !a.events[i].AckDied?
      ensures connected == e.Running?
      ensures notices == old(notices) + match e case NoConnection => [] case Running => [true] case _ => [true, false]
      ensures Failed(handed) <= old(Failed(handed)) + if e.Running? || e.NoConnection? then 0 else 1
    {
      assert a.events[..0] == [] && Inputs([]) == [];
      hide Handed, Failed, Sent, WellNumbered, Alternates, Word, Inputs, Tallied;
      used := 0;
      if !a.dial || !a.open {
        return NoConnection, used;
      }
      NotifyConnChange(true);
      e, used := Serve(a.events);
      if !e.Running? {
        NotifyConnChange(false);
      }
    }

    /** One round of Start: a connection, and when it fails the wait before the next one. */
    method Reconnect(a: Attempt, backoff: nat) returns (r: Round, again: bool, next: nat)
      requires Valid() && !connected
      modifies this, batcher
      ensures Valid() && connected == r.end.Running?
      ensures Follows(a, r) && (r.wait.Some? ==> r.wait.value == backoff)
      ensures received == old(received) + Inputs(r.through)
      ensures r.end.NoConnection? <==> !(a.dial && a.open)
      ensures r.wait.Some? <==> (r.end.NoConnection? || r.end.Broken?) && !a.doneBefore
      ensures again <==> (r.end.NoConnection? || r.end.Broken?) && !a.doneBefore && !a.doneDuring
      ensures notices == old(notices) + (if a.dial && a.open then [true] else [])
                         + (if r.end.Clean? || r.end.Broken? then [false] else [])
                         + (if r.wait.Some? then [false] else [])
      ensures notices == old(notices) + Told(r) && (again ==> !connected)
      ensures next == NextAfter(a, backoff)
      ensures Failed(handed) <= old(Failed(handed)) + if r.end.NoConnection? then 0 else 1
    {
      hide Handed, Failed, Sent, WellNumbered, Alternates, Word, Inputs, Tallied;
      var e, used := RunOnce(a);
      var through := a.events[..used];
      r, again := Round(e, through, None), false;
      if !e.NoConnection? {
        next := INITIAL_BACKOFF;
      } else {
        next := if backoff * 2 <= MAX_BACKOFF then backoff * 2 else MAX_BACKOFF;
      }
      if e.Clean? || e.Running? || a.doneBefore {
        return;
      }
      NotifyConnChange(false);
      r, again := Round(e, through, Some(backoff)), !a.doneDuring;
    }

    /** Start: connection after connection, as long as they fail and the context is not done. */
    method Start(attempts: seq<Attempt>) returns (rounds: seq<Round>)
      requires Valid() && !connected
      modifies this, batcher
      ensures Valid()
      ensures |rounds| <= |attempts| && Chronicle(attempts, rounds)
      ensures received == old(received) + TakenOver(rounds) && notices == old(notices) + AllTold(rounds)
      ensures attempts != [] ==> rounds != []
      ensures forall i :: 0 <= i < |rounds| && i + 1 < |attempts| ==>
                (i + 1 < |rounds| <==>
                 (rounds[i].end.NoConnection? || rounds[i].end.Broken?)
                 && !attempts[i].doneBefore && !attempts[i].doneDuring)
      ensures forall i :: 0 <= i < |rounds| ==>
                && (rounds[i].end.NoConnection? <==> !(attempts[i].dial && attempts[i].open))
                && (rounds[i].wait.Some? <==>
                    (rounds[i].end.NoConnection? || rounds[i].end.Broken?) && !attempts[i].doneBefore)
      ensures Failed(handed) <= old(Failed(handed)) + Sessions(rounds)
    {
      var backoff, again := INITIAL_BACKOFF, true;
      rounds := [];
      NoRounds(attempts);
      hide Handed, Failed, Sent, WellNumbered, Alternates, Word, Tallied, Inputs, Valid;
      hide TakenOver, AllTold, Told, Sessions, Streak, Backoff, NextAfter, Chronicle, Follows;
      while again && |rounds| < |attempts|
        invariant Valid() && (again ==> !connected)
        invariant |rounds| <= |attempts| && Chronicle(attempts, rounds)
        invariant received == old(received) + TakenOver(rounds) && notices == old(notices) + AllTold(rounds)
        invariant rounds != [] ==> again == GoesOn(attempts[|rounds| - 1], rounds[|rounds| - 1].end)
        invariant rounds == [] ==> again
        invariant again ==> backoff == Backoff(Streak(attempts[..|rounds|]))
        invariant Failed(handed) <= old(Failed(handed)) + Sessions(rounds)
      {
        var r;
        NextBackoff(attempts, |rounds|);
        r, again, backoff := Reconnect(attempts[|rounds|], backoff);
        OneMoreRound(attempts, rounds, r);
        rounds := rounds + [r];
      }
      WhatChronicleSays(attempts, rounds);
    }
  }

  lemma WhatChronicleSays(attempts: seq<Attempt>, rounds: seq<Round>)
    requires Chronicle(attempts, rounds) && (attempts != [] ==> rounds != [])
    requires |rounds| < |attempts| ==> !GoesOn(attempts[|rounds| - 1], rounds[|rounds| - 1].end)
    ensures forall i :: 0 <= i < |rounds| && i + 1 < |attempts| ==>
              (i + 1 < |rounds| <==>
               (rounds[i].end.NoConnection? || rounds[i].end.Broken?)
               && !attempts[i].doneBefore && !attempts[i].doneDuring)
    ensures forall i :: 0 <= i < |rounds| ==>
              && (rounds[i].end.NoConnection? <==> !(attempts[i].dial && attempts[i].open))
              && (rounds[i].wait.Some? <==>
                  (rounds[i].end.NoConnection? || rounds[i].end.Broken?) && !attempts[i].doneBefore)
  {
    forall i | 0 <= i < |rounds| && i + 1 < |attempts|
      ensures i + 1 < |rounds| <==>
              (rounds[i].end.NoConnection? || rounds[i].end.Broken?)
              && !attempts[i].doneBefore && !attempts[i].doneDuring
    {
      assert i + 1 < |rounds| <==> GoesOn(attempts[i], rounds[i].end);
    }
  }

  lemma NoRounds(attempts: seq<Attempt>)
    ensures Chronicle(attempts, []) && TakenOver([]) == [] && AllTold([]) == [] && Sessions([]) == 0
    ensures Backoff(Streak(attempts[..0])) == INITIAL_BACKOFF
  {
  }

  lemma {:induction false} OneMoreRound(attempts: seq<Attempt>, rounds: seq<Round>, r: Round)
    requires Chronicle(attempts, rounds) && |rounds| < |attempts| && Follows(attempts[|rounds|], r)
    requires rounds != [] ==> GoesOn(attempts[|rounds| - 1], rounds[|rounds| - 1].end)
    requires r.wait.Some? ==> r.wait.value == Backoff(Streak(attempts[..|rounds|]))
    ensures Chronicle(attempts, rounds + [r])
    ensures TakenOver(rounds + [r]) == TakenOver(rounds) + Inputs(r.through)
    ensures AllTold(rounds + [r]) == AllTold(rounds) + Told(r)
    ensures Sessions(rounds + [r]) == Sessions(rounds) + if r.end.NoConnection? then 0 else 1
  {
    hide Backoff, Streak, Inputs;
    assert (rounds + [r])[..|rounds|] == rounds;
  }

  /** How many of the latest attempts in a row found no connection. */
  function Streak(attempts: seq<Attempt>): nat {
    if attempts == [] then 0
    else
      var last := attempts[|attempts| - 1];
      if last.dial && last.open then 0 else 1 + Streak(attempts[..|attempts| - 1])
  }

  function PowerOf2(n: nat): nat {
    if n == 0 then 1 else 2 * PowerOf2(n - 1)
  }

  /** Seconds to wait after a streak of n attempts without a connection. */
  function Backoff(n: nat): nat {
    if PowerOf2(n) <= MAX_BACKOFF then PowerOf2(n) else MAX_BACKOFF
  }

  /** The next backoff, in terms of the last one. */
  function NextAfter(a: Attempt, backoff: nat): nat {
    if a.dial && a.open then INITIAL_BACKOFF
    else if backoff * 2 <= MAX_BACKOFF then backoff * 2 else MAX_BACKOFF
  }

  lemma NextBackoff(attempts: seq<Attempt>, i: nat)
    requires i < |attempts|
    ensures Backoff(Streak(attempts[..i + 1])) == NextAfter(attempts[i], Backoff(Streak(attempts[..i])))
  {
    assert attempts[..i + 1][..i] == attempts[..i];
  }

  /** The waits in seconds, by how many attempts in a row have found no connection. */
  lemma BackoffInSeconds(n: nat)
    ensures Backoff(n) == if n == 0 then 1 else if n == 1 then 2 else if n == 2 then 4 else if n == 3 then 8
                          else if n == 4 then 16 else if n == 5 then 32 else 60
  {
    assert PowerOf2(3) == 8 && PowerOf2(6) == 64;
    PowersGrow(6, n);
  }

  lemma {:induction false} PowersGrow(m: nat, n: nat)
    ensures m <= n ==> PowerOf2(m) <= PowerOf2(n)
  {
    if m < n {
      PowersGrow(m, n - 1);
    }
  }

  /** The streak is the longest stretch of attempts without a connection at the end. */
  lemma {:induction false} StreakIs(attempts: seq<Attempt>)
    ensures var n := Streak(attempts);
            && n <= |attempts|
            && (forall i :: |attempts| - n <= i < |attempts| ==> !(attempts[i].dial && attempts[i].open))
            && (n < |attempts| ==> attempts[|attempts| - n - 1].dial && attempts[|attempts| - n - 1].open)
  {
    if attempts != [] {
      StreakIs(attempts[..|attempts| - 1]);
    }
  }
}
