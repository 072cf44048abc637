/** The idempotency key of a batch (internal/cloud/client.go): a hash over the sorted device|timestamp keys. */
module BatchId {
  import opened Seqs
  import opened Cloud

  const NUL: byte := 0
  const BAR: byte := 124

  /** Bytewise order, as sort.Strings has it. */
  predicate Leq(a: Text, b: Text) {
    if a == [] then true
    else if b == [] then false
    else a[0] < b[0] || (a[0] == b[0] && Leq(a[1..], b[1..]))
  }

  lemma {:induction false} LeqTotal(a: Text, b: Text)
    ensures Leq(a, b) || Leq(b, a)
  {
    if a != [] && b != [] {
      LeqTotal(a[1..], b[1..]);
    }
  }

  lemma {:induction false} LeqAntisymmetric(a: Text, b: Text)
    requires Leq(a, b) && Leq(b, a)
    ensures a == b
  {
    if a != [] && b != [] {
      LeqAntisymmetric(a[1..], b[1..]);
      assert a == [a[0]] + a[1..] && b == [b[0]] + b[1..];
    }
  }

  lemma {:induction false} LeqTransitive(a: Text, b: Text, c: Text)
    requires Leq(a, b) && Leq(b, c)
    ensures Leq(a, c)
  {
    if a != [] && b != [] && c != [] && a[0] == b[0] == c[0] {
      LeqTransitive(a[1..], b[1..], c[1..]);
    }
  }

  ghost predicate Sorted(ks: seq<Text>) {
    forall i, j :: 0 <= i < j < |ks| ==> Leq(ks[i], ks[j])
  }

  /** A stand-in for sort.Strings. */
  function SortStrings(ks: seq<Text>): (r: seq<Text>)
    ensures Sorted(r) && multiset(r) == multiset(ks)
  {
    if ks == [] then []
    else
      assert ks == [ks[0]] + ks[1..];
      Insert(ks[0], SortStrings(ks[1..]))
  }

  function Insert(k: Text, ks: seq<Text>): (r: seq<Text>)
    requires Sorted(ks)
    ensures Sorted(r) && multiset(r) == multiset{k} + multiset(ks)
  {
    if ks == [] then [k]
    else
      assert ks == [ks[0]] + ks[1..];
      if Leq(k, ks[0]) then
        assert forall i :: 0 <= i < |ks| ==> Leq(k, ks[i]) by {
          forall i | 0 < i < |ks| ensures Leq(k, ks[i]) { LeqTransitive(k, ks[0], ks[i]); }
        }
        [k] + ks
      else
        var rest := Insert(k, ks[1..]);
        assert forall i :: 0 <= i < |rest| ==> Leq(ks[0], rest[i]) by {
          LeqTotal(k, ks[0]);
          forall i | 0 <= i < |rest| ensures Leq(ks[0], rest[i]) {
            assert rest[i] in multiset(rest);
            assert rest[i] == k || rest[i] in ks[1..];
          }
        }
        [ks[0]] + rest
  }

  /** A multiset of strings has one sorted order. */
  lemma {:induction false} SortedUnique(a: seq<Text>, b: seq<Text>)
    requires Sorted(a) && Sorted(b) && multiset(a) == multiset(b)
    ensures a == b
  {
    PermutedNil(a, b);
    if a != [] {
      SameFirst(a, b);
      PermutedTails(a, b);
      assert a == [a[0]] + a[1..] && b == [b[0]] + b[1..];
      SortedUnique(a[1..], b[1..]);
    }
  }

  lemma SameFirst(a: seq<Text>, b: seq<Text>)
    requires Sorted(a) && Sorted(b) && multiset(a) == multiset(b) && a != [] && b != []
    ensures a[0] == b[0]
  {
    hide Leq;
    var i := Locate(b, a);
    var j := Locate(a, b);
    Reflexive(a[0]);
    LeqAntisymmetric(a[0], b[0]);
  }

  lemma {:induction false} Reflexive(a: Text)
    ensures Leq(a, a)
  {
    if a != [] {
      Reflexive(a[1..]);
    }
  }

  /** What the key of a sample is made from. */
  datatype Identity = Identity(deviceId: Text, timestamp: Text)

  function IdentityOf(s: Sample): Identity {
    Identity(s.deviceId, s.timestamp)
  }

  function Key(id: Identity): Text {
    id.deviceId + [BAR] + id.timestamp
  }

  function Identities(samples: seq<Sample>): seq<Identity> {
    Map(IdentityOf, samples)
  }

  /** The bytes that go into the hash for a sorted list of keys. */
  function Terminated(ks: seq<Text>): seq<byte> {
    if ks == [] then [] else Terminated(ks[..|ks| - 1]) + ks[|ks| - 1] + [NUL]
  }

  function Preimage(samples: seq<Sample>): seq<byte> {
    Terminated(SortStrings(Map(Key, Identities(samples))))
  }

  /** The first 16 of the 64 hexadecimal digits of the hash. */
  method BatchIdFromSamples(samples: seq<Sample>, sha256: seq<byte> -> seq<byte>, hex: seq<byte> -> string)
    returns (id: string)
    requires forall d :: |hex(sha256(d))| == 64
    ensures id == hex(sha256(Preimage(samples)))[..16]
  {
    var keys := new Text[|samples|];
    for i := 0 to |samples|
      invariant forall j :: 0 <= j < i ==> keys[j] == Key(IdentityOf(samples[j]))
    {
      keys[i] := samples[i].deviceId + [BAR] + samples[i].timestamp;
    }
    assert keys[..] == Map(Key, Identities(samples));
    var sorted := SortStrings(keys[..]);
    var data := [];
    for i := 0 to |sorted|
      invariant data == Terminated(sorted[..i])
    {
      assert sorted[..i + 1][..i] == sorted[..i];
      data := data + sorted[i] + [NUL];
    }
    assert sorted[..|sorted|] == sorted;
    id := hex(sha256(data))[..16];
  }

  /** The order of the samples does not matter: the same samples, retried in any order, get the same key. */
  lemma OrderIrrelevant(a: seq<Sample>, b: seq<Sample>)
    requires multiset(Identities(a)) == multiset(Identities(b))
    ensures Preimage(a) == Preimage(b)
  {
    PermutedImage(Key, Identities(a), Identities(b));
    SortedUnique(SortStrings(Map(Key, Identities(a))), SortStrings(Map(Key, Identities(b))));
  }

  ghost predicate NulFree(t: Text) {
    NUL !in t
  }

  /** Without NULs the terminators mark off the keys. */
  lemma {:induction false} TerminatedInjective(a: seq<Text>, b: seq<Text>)
    requires Terminated(a) == Terminated(b)
    requires (forall k :: k in a ==> NulFree(k)) && (forall k :: k in b ==> NulFree(k))
    ensures a == b
    decreases |a|
  {
    if a == [] || b == [] {
    } else {
      var m, n := |a| - 1, |b| - 1;
      LastKey(a[..m], a[m], b[..n], b[n]);
      TerminatedInjective(a[..m], b[..n]);
      assert a == a[..m] + [a[m]] && b == b[..n] + [b[n]];
    }
  }

  lemma EndsInNul(ks: seq<Text>)
    ensures Terminated(ks) == [] || Terminated(ks)[|Terminated(ks)| - 1] == NUL
  {
  }

  lemma ReachesOver(x: seq<byte>, k: Text, y: seq<byte>, l: Text)
    requires x + k == y + l && |x| < |y| && y[|y| - 1] == NUL
    ensures NUL in k
  {
    assert (x + k)[|y| - 1] == k[|y| - 1 - |x|] && (y + l)[|y| - 1] == NUL;
  }

  /** The last key reaches back to the terminator before it, or to the start. */
  lemma LastKey(before: seq<Text>, k: Text, before': seq<Text>, l: Text)
    requires Terminated(before) + k + [NUL] == Terminated(before') + l + [NUL] && NulFree(k) && NulFree(l)
    ensures Terminated(before) == Terminated(before') && k == l
  {
    hide Terminated;
    var x, y := Terminated(before), Terminated(before');
    EndsInNul(before);
    EndsInNul(before');
    var z := x + k + [NUL];
    assert z[..|z| - 1] == x + k == y + l;
    if |x| < |y| {
      ReachesOver(x, k, y, l);
    } else if |y| < |x| {
      ReachesOver(y, l, x, k);
    } else {
      assert x == (x + k)[..|x|] && y == (y + l)[..|y|];
      assert k == (x + k)[|x|..] && l == (y + l)[|y|..];
    }
  }

  /** Equal hash inputs mean equal multisets of keys, as long as there are no NULs. */
  lemma SameKeys(a: seq<Sample>, b: seq<Sample>)
    requires forall s :: s in a || s in b ==> NulFree(s.deviceId) && NulFree(s.timestamp)
    ensures Preimage(a) == Preimage(b)
            <==> multiset(Map(Key, Identities(a))) == multiset(Map(Key, Identities(b)))
  {
    var ka, kb := SortStrings(Map(Key, Identities(a))), SortStrings(Map(Key, Identities(b)));
    forall k | k in ka || k in kb
      ensures NulFree(k)
    {
      assert k in multiset(ka) || k in multiset(kb);
      assert k in Map(Key, Identities(a)) || k in Map(Key, Identities(b));
    }
    if Preimage(a) == Preimage(b) {
      TerminatedInjective(ka, kb);
    } else if multiset(ka) == multiset(kb) {
      SortedUnique(ka, kb);
    }
  }

  /** t ends in '|' and then u. */
  ghost predicate EndsWithBarAnd(t: Text, u: Text) {
    |t| > |u| && t[|t| - |u| - 1] == BAR && t[|t| - |u|..] == u
  }

  ghost predicate Separable(timestamps: set<Text>) {
    forall t, u :: t in timestamps && u in timestamps ==> !EndsWithBarAnd(t, u)
  }

  lemma BarFreeIsSeparable(timestamps: set<Text>)
    requires forall t :: t in timestamps ==> BAR !in t
    ensures Separable(timestamps)
  {
  }

  lemma KeyInjective(a: Identity, b: Identity)
    requires Key(a) == Key(b)
    ensures a == b || EndsWithBarAnd(a.timestamp, b.timestamp) || EndsWithBarAnd(b.timestamp, a.timestamp)
  {
    var k := Key(a);
    var m, n := |a.timestamp|, |b.timestamp|;
    assert k[|k| - m..] == a.timestamp && k[|k| - n..] == b.timestamp;
    assert k[..|k| - m - 1] == a.deviceId && k[..|k| - n - 1] == b.deviceId;
    assert k[|k| - m - 1] == BAR && k[|k| - n - 1] == BAR;
    if m > n {
      assert a.timestamp[m - n - 1] == k[|k| - m..][m - n - 1] == k[|k| - n - 1];
      assert a.timestamp[m - n..] == k[|k| - m..][m - n..] == k[|k| - n..];
    } else if n > m {
      assert b.timestamp[n - m - 1] == k[|k| - n..][n - m - 1] == k[|k| - m - 1];
      assert b.timestamp[n - m..] == k[|k| - n..][n - m..] == k[|k| - m..];
    }
  }

  ghost predicate Over(timestamps: set<Text>, samples: seq<Sample>) {
    forall s :: s in samples ==> NulFree(s.deviceId) && s.timestamp in timestamps
  }

  ghost predicate Collide(a: seq<Sample>, b: seq<Sample>) {
    Preimage(a) == Preimage(b) && multiset(Identities(a)) != multiset(Identities(b))
  }

  /** The hash input identifies the multiset of (device, timestamp) pairs exactly when no timestamp in use ends
      in '|' and another timestamp in use; in particular when timestamps contain no '|'. This is for device ids and
      timestamps without NULs. */
  lemma IdentifiesExactlyWhen(timestamps: set<Text>)
    requires forall t :: t in timestamps ==> NulFree(t)
    ensures Separable(timestamps) <==>
            forall a, b :: Over(timestamps, a) && Over(timestamps, b) ==> !Collide(a, b)
    ensures (forall t :: t in timestamps ==> BAR !in t) ==> Separable(timestamps)
  {
    if forall t :: t in timestamps ==> BAR !in t {
      BarFreeIsSeparable(timestamps);
    }
    if Separable(timestamps) {
      forall a, b | Over(timestamps, a) && Over(timestamps, b)
        ensures !Collide(a, b)
      {
        Identifies(timestamps, a, b);
      }
    } else {
      var t, u :| t in timestamps && u in timestamps && EndsWithBarAnd(t, u);
      var a, b := Ambiguous(t, u);
      assert Over(timestamps, a) && Over(timestamps, b);
    }
  }

  lemma Identifies(timestamps: set<Text>, a: seq<Sample>, b: seq<Sample>)
    requires forall t :: t in timestamps ==> NulFree(t)
    requires Separable(timestamps) && Over(timestamps, a) && Over(timestamps, b)
    ensures Preimage(a) == Preimage(b) <==> multiset(Identities(a)) == multiset(Identities(b))
  {
    SameKeys(a, b);
    var x, y := Identities(a), Identities(b);
    forall i, j | 0 <= i < |x| && 0 <= j < |y| && Key(x[i]) == Key(y[j])
      ensures x[i] == y[j]
    {
      assert a[i] in a && b[j] in b;
      KeyInjective(x[i], y[j]);
    }
    if Preimage(a) == Preimage(b) {
      UnpermutedImage(Key, Identities(a), Identities(b));
    } else if multiset(Identities(a)) == multiset(Identities(b)) {
      OrderIrrelevant(a, b);
    }
  }

  lemma Ambiguous(t: Text, u: Text) returns (a: seq<Sample>, b: seq<Sample>)
    requires EndsWithBarAnd(t, u) && NulFree(t)
    ensures |a| == |b| == 1 && a[0].timestamp == t && b[0].timestamp == u
    ensures NulFree(a[0].deviceId) && NulFree(b[0].deviceId)
    ensures Collide(a, b)
  {
    var x := t[..|t| - |u| - 1];
    a, b := [Sample([], t, [])], [Sample([BAR] + x, u, [])];
    assert t == x + [BAR] + u;
    assert Key(IdentityOf(a[0])) == [] + [BAR] + (x + [BAR] + u) == [BAR] + x + [BAR] + u == Key(IdentityOf(b[0]));
    assert Map(Key, Identities(a)) == Map(Key, Identities(b));
    assert Identities(a)[0] in multiset(Identities(a)) && Identities(a)[0] !in multiset(Identities(b));
  }

  lemma TerminatedOne(k: Text)
    ensures Terminated([k]) == k + [NUL]
  {
    assert [k][..0] == [] && Terminated([k][..0]) == [];
  }

  lemma PreimageOfOne(s: Sample)
    ensures Preimage([s]) == Key(IdentityOf(s)) + [NUL]
  {
    var ks := Map(Key, Identities([s]));
    assert ks == [Key(IdentityOf(s))];
    SortedUnique(ks, SortStrings(ks));
    TerminatedOne(Key(IdentityOf(s)));
  }

  /** With NULs in device ids any batch of two or more samples can be passed off as a single one: its device id
      is all the sorted keys but the last, each with its terminator, and then the device id of the last. */
  lemma NulCollides(a: seq<Sample>) returns (b: seq<Sample>, i: nat)
    requires |a| >= 2
    ensures i < |a| && |b| == 1 && b[0].timestamp == a[i].timestamp
    ensures var ks := SortStrings(Map(Key, Identities(a)));
            |ks| == |a| && b[0].deviceId == Terminated(ks[..|ks| - 1]) + a[i].deviceId
    ensures Collide(a, b)
  {
    var ks;
    ks, i := WithLastKey(a);
    assert Preimage(a) == Terminated(ks);
    hide SortStrings, Terminated, Key, Preimage, Identities;
    b := [PassedOff(ks[..|ks| - 1], a[i])];
    PreimageOfOne(b[0]);
    PassedOffKey(ks, a[i]);
    DifferInSize(a, b);
  }

  lemma DifferInSize(a: seq<Sample>, b: seq<Sample>)
    requires |a| != |b|
    ensures multiset(Identities(a)) != multiset(Identities(b))
  {
    assert |multiset(Identities(a))| == |a| && |multiset(Identities(b))| == |b|;
  }

  lemma WithLastKey(a: seq<Sample>) returns (ks: seq<Text>, i: nat)
    requires a != []
    ensures ks == SortStrings(Map(Key, Identities(a))) && |ks| == |a|
    ensures i < |a| && ks[|ks| - 1] == Key(IdentityOf(a[i]))
  {
    var all := Map(Key, Identities(a));
    ks := SortStrings(all);
    PermutedNil(ks, all);
    assert ks[|ks| - 1] in multiset(ks) && ks[|ks| - 1] in all;
    i :| 0 <= i < |a| && all[i] == ks[|ks| - 1];
  }

  function PassedOff(ks: seq<Text>, s: Sample): Sample {
    Sample(Terminated(ks) + s.deviceId, s.timestamp, [])
  }

  lemma PassedOffKey(ks: seq<Text>, s: Sample)
    requires ks != [] && ks[|ks| - 1] == Key(IdentityOf(s))
    ensures Terminated(ks) == Key(IdentityOf(PassedOff(ks[..|ks| - 1], s))) + [NUL]
  {
    var t := Terminated(ks[..|ks| - 1]);
    assert t + s.deviceId + [BAR] + s.timestamp == t + (s.deviceId + [BAR] + s.timestamp);
  }

  ghost predicate TimestampsIn(timestamps: set<Text>, samples: seq<Sample>) {
    forall s :: s in samples ==> s.timestamp in timestamps
  }

  /** So with device ids left free, batches never collide exactly when there is no timestamp to make one with. */
  lemma FreeDevicesCollideUnlessEmpty(timestamps: set<Text>)
    ensures timestamps == {} <==>
            forall a, b :: TimestampsIn(timestamps, a) && TimestampsIn(timestamps, b) ==> !Collide(a, b)
  {
    if timestamps == {} {
      forall a, b | TimestampsIn(timestamps, a) && TimestampsIn(timestamps, b)
        ensures !Collide(a, b)
      {
        NoSamples(timestamps, a);
        NoSamples(timestamps, b);
      }
    } else {
      var t :| t in timestamps;
      var a := [Sample([], t, []), Sample([], t, [])];
      var b, i := NulCollides(a);
      assert TimestampsIn(timestamps, a) && TimestampsIn(timestamps, b);
    }
  }

  lemma NoSamples(timestamps: set<Text>, samples: seq<Sample>)
    requires TimestampsIn(timestamps, samples)
    ensures timestamps == {} ==> samples == []
  {
    if samples != [] {
      assert samples[0].timestamp in timestamps;
    }
  }
}
