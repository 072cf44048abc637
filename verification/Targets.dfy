/** Whether a reloaded configuration names the same power distribution units
    (internal/adapter/snmp_pdu/adapter.go). */
module Targets {
  import opened Seqs

  datatype PDUTarget = PDUTarget(address: string, pduId: string, rackIds: seq<string>, vendor: string)

  /** What the comparison looks at: the joined key, the vendor, and the rack ids whatever their order. */
  datatype Entry = Entry(key: string, vendor: string, racks: multiset<string>)

  function Key(t: PDUTarget): string {
    t.address + "|" + t.pduId
  }

  function EntryOf(t: PDUTarget): Entry {
    Entry(Key(t), t.vendor, multiset(t.rackIds))
  }

  function Entries(ts: seq<PDUTarget>): multiset<Entry> {
    multiset(Map(EntryOf, ts))
  }

  /** A Go map yields the zero value for an absent key. */
  function Lookup<V>(m: map<string, V>, k: string, zero: V): V {
    if k in m then m[k] else zero
  }

  lemma SameSize<T>(x: multiset<T>, y: multiset<T>)
    requires x <= y && |x| == |y|
    ensures x == y
  {
    assert y == x + (y - x);
    assert |y - x| == 0;
  }

  lemma TakeOneMore<T>(s: seq<T>, i: nat)
    requires i < |s|
    ensures multiset(s[..i + 1]) == multiset(s[..i]) + multiset{s[i]}
    ensures multiset(s[..i + 1]) <= multiset(s)
  {
    assert s[..i + 1] == s[..i] + [s[i]];
    assert s == s[..i + 1] + s[i + 1..];
  }

  /** The counters hold how much more often each string occurs in x than in y. */
  ghost predicate Balanced(left: map<string, int>, x: multiset<string>, y: multiset<string>) {
    forall k :: Lookup(left, k, 0) + y[k] == x[k]
  }

  lemma CountUp(left: map<string, int>, x: multiset<string>, k: string)
    requires Balanced(left, x, multiset{})
    ensures Balanced(left[k := Lookup(left, k, 0) + 1], x + multiset{k}, multiset{})
  {
    forall j
      ensures Lookup(left[k := Lookup(left, k, 0) + 1], j, 0) + multiset{}[j] == (x + multiset{k})[j]
    {
      assert Lookup(left, j, 0) + multiset{}[j] == x[j];
    }
  }

  lemma CountDown(left: map<string, int>, x: multiset<string>, y: multiset<string>, k: string)
    requires Balanced(left, x, y) && y <= x
    ensures Balanced(left[k := Lookup(left, k, 0) - 1], x, y + multiset{k})
    ensures Lookup(left, k, 0) - 1 < 0 <==> !(y + multiset{k} <= x)
  {
    forall j
      ensures Lookup(left[k := Lookup(left, k, 0) - 1], j, 0) + (y + multiset{k})[j] == x[j]
    {
      assert Lookup(left, j, 0) + y[j] == x[j];
    }
  }

  /** rackIDsEqual: counting up and down decides whether one list is a permutation of the other. */
  method RackIDsEqual(a: seq<string>, b: seq<string>) returns (r: bool)
    ensures r <==> multiset(a) == multiset(b)
  {
    hide Balanced;
    if |a| != |b| {
      assert |multiset(a)| != |multiset(b)|;
      return false;
    }
    var left: map<string, int> := map[];
    assert Balanced(left, multiset{}, multiset{}) by { Unbiased(); }
    assert a[..0] == [] == b[..0];
    for i := 0 to |a|
      invariant Balanced(left, multiset(a[..i]), multiset{})
    {
      CountUp(left, multiset(a[..i]), a[i]);
      TakeOneMore(a, i);
      left := left[a[i] := Lookup(left, a[i], 0) + 1];
    }
    assert a[..|a|] == a && b[..|b|] == b;
    for i := 0 to |b|
      invariant Balanced(left, multiset(a), multiset(b[..i])) && multiset(b[..i]) <= multiset(a)
    {
      CountDown(left, multiset(a), multiset(b[..i]), b[i]);
      TakeOneMore(b, i);
      left := left[b[i] := Lookup(left, b[i], 0) - 1];
      if left[b[i]] < 0 {
        return false;
      }
    }
    SameSize(multiset(b), multiset(a));
    r := true;
  }

  lemma Unbiased()
    ensures Balanced(map[], multiset{}, multiset{})
  {
  }

  ghost predicate Keyed(am: map<string, seq<PDUTarget>>) {
    forall k, t :: t in Lookup(am, k, []) ==> Key(t) == k
  }

  /** How many targets with entry e are still to be matched. */
  ghost function Left(am: map<string, seq<PDUTarget>>, e: Entry): nat {
    Entries(Lookup(am, e.key, []))[e]
  }

  /** The targets still unmatched account for the entries of a beyond those of done. */
  ghost predicate Remaining(am: map<string, seq<PDUTarget>>, a: multiset<Entry>, done: multiset<Entry>) {
    Keyed(am) && forall e :: Left(am, e) + done[e] == a[e]
  }

  lemma Replace(am: map<string, seq<PDUTarget>>, k: string, ts: seq<PDUTarget>, e: Entry)
    ensures Left(am[k := ts], e) == if e.key == k then Entries(ts)[e] else Left(am, e)
  {
  }

  lemma ReplaceKeyed(am: map<string, seq<PDUTarget>>, k: string, ts: seq<PDUTarget>)
    requires Keyed(am) && forall t :: t in ts ==> Key(t) == k
    ensures Keyed(am[k := ts])
  {
    hide Key;
    var am' := am[k := ts];
    forall j, t | t in Lookup(am', j, [])
      ensures Key(t) == j
    {
      if j != k {
        assert t in Lookup(am, j, []);
      }
    }
  }

  lemma MapTake<A, B>(f: A -> B, s: seq<A>, i: nat)
    requires i < |s|
    ensures multiset(Map(f, s[..i + 1])) == multiset(Map(f, s[..i])) + multiset{f(s[i])}
    ensures multiset(Map(f, s[..i + 1])) <= multiset(Map(f, s))
  {
    assert Map(f, s[..i]) == Map(f, s)[..i] && Map(f, s[..i + 1]) == Map(f, s)[..i + 1];
    TakeOneMore(Map(f, s), i);
  }

  lemma Grouped(am: map<string, seq<PDUTarget>>, before: multiset<Entry>, t: PDUTarget)
    requires Remaining(am, before, multiset{})
    ensures Remaining(am[Key(t) := Lookup(am, Key(t), []) + [t]], before + multiset{EntryOf(t)}, multiset{})
  {
    var entries := Lookup(am, Key(t), []);
    ReplaceKeyed(am, Key(t), entries + [t]);
    EntriesSnoc(entries, t);
    hide Entries, Left, Keyed, EntryOf, Key;
    forall e
      ensures Left(am[Key(t) := entries + [t]], e) + multiset{}[e] == (before + multiset{EntryOf(t)})[e]
    {
      Replace(am, Key(t), entries + [t], e);
      AtKey(am, e, t);
    }
  }

  lemma AtKey(am: map<string, seq<PDUTarget>>, e: Entry, t: PDUTarget)
    ensures e.key == Key(t) ==> Left(am, e) == Entries(Lookup(am, Key(t), []))[e]
    ensures e.key != Key(t) ==> multiset{EntryOf(t)}[e] == 0
  {
  }

  lemma EntriesSnoc(ts: seq<PDUTarget>, t: PDUTarget)
    ensures Entries(ts + [t]) == Entries(ts) + multiset{EntryOf(t)}
  {
    assert Map(EntryOf, ts + [t]) == Map(EntryOf, ts) + [EntryOf(t)];
  }

  lemma EntriesWithout(ts: seq<PDUTarget>, i: nat)
    requires i < |ts|
    ensures Entries(ts) == multiset{EntryOf(ts[i])} + Entries(Without(ts, i))
    ensures forall t :: t in Without(ts, i) ==> t in ts
  {
    MapWithout(EntryOf, ts, i);
    RemoveAt(Map(EntryOf, ts), i);
  }

  lemma Matched(am: map<string, seq<PDUTarget>>, a: multiset<Entry>, done: multiset<Entry>, t: PDUTarget, idx: nat)
    requires Remaining(am, a, done) && idx < |Lookup(am, Key(t), [])|
    requires EntryOf(Lookup(am, Key(t), [])[idx]) == EntryOf(t)
    ensures Remaining(am[Key(t) := Without(Lookup(am, Key(t), []), idx)], a, done + multiset{EntryOf(t)})
  {
    var entries := Lookup(am, Key(t), []);
    var left := Without(entries, idx);
    EntriesWithout(entries, idx);
    ReplaceKeyed(am, Key(t), left);
    hide Entries, Left, Keyed, EntryOf, Key, Without;
    forall e
      ensures Left(am[Key(t) := left], e) + (done + multiset{EntryOf(t)})[e] == a[e]
    {
      Replace(am, Key(t), left, e);
      AtKey(am, e, t);
    }
  }

  lemma Unmatched(am: map<string, seq<PDUTarget>>, a: multiset<Entry>, done: multiset<Entry>, t: PDUTarget)
    requires Remaining(am, a, done)
    requires forall i :: 0 <= i < |Lookup(am, Key(t), [])| ==> EntryOf(Lookup(am, Key(t), [])[i]) != EntryOf(t)
    ensures a[EntryOf(t)] == done[EntryOf(t)]
  {
    var entries := Lookup(am, Key(t), []);
    assert EntryOf(t) !in Map(EntryOf, entries);
    assert Left(am, EntryOf(t)) == 0;
  }

  lemma EntriesTake(ts: seq<PDUTarget>, i: nat)
    requires i < |ts|
    ensures Entries(ts[..i + 1]) == Entries(ts[..i]) + multiset{EntryOf(ts[i])}
    ensures Entries(ts[..i + 1]) <= Entries(ts)
  {
    MapTake(EntryOf, ts, i);
  }

  lemma Start(ts: seq<PDUTarget>)
    ensures Remaining(map[], Entries(ts[..0]), multiset{})
    ensures Entries(ts[..0]) == multiset{} && ts[..|ts|] == ts
    ensures |Entries(ts)| == |ts|
  {
    assert forall e :: Left(map[], e) == 0;
  }

  lemma Decided(am: map<string, seq<PDUTarget>>, a: multiset<Entry>, b: multiset<Entry>)
    requires Remaining(am, a, b) && |a| == |b|
    ensures a == b
  {
    forall e: Entry
      ensures b[e] <= a[e]
    {
      assert Left(am, e) + b[e] == a[e];
    }
    SameSize(b, a);
  }

  /** The search for the first entry that matches t. */
  method FindMatch(entries: seq<PDUTarget>, t: PDUTarget) returns (idx: Option<nat>)
    requires forall e :: e in entries ==> Key(e) == Key(t)
    ensures idx.Some? ==> idx.value < |entries| && EntryOf(entries[idx.value]) == EntryOf(t)
    ensures forall j :: 0 <= j < (if idx.Some? then idx.value else |entries|) ==> EntryOf(entries[j]) != EntryOf(t)
  {
    for i := 0 to |entries|
      invariant forall j :: 0 <= j < i ==> EntryOf(entries[j]) != EntryOf(t)
    {
      if entries[i].vendor == t.vendor {
        var same := RackIDsEqual(entries[i].rackIds, t.rackIds);
        if same {
          return Some(i);
        }
      }
    }
    idx := None;
  }

  /** targetsEqual: taking out the first match for each target is enough to decide whether the two lists have
      the same entries, each as often. */
  method TargetsEqual(a: seq<PDUTarget>, b: seq<PDUTarget>) returns (r: bool)
    ensures r <==> Entries(a) == Entries(b)
  {
    hide Entries, EntryOf, Key;
    Start(a);
    Start(b);
    if |a| != |b| {
      return false;
    }
    var am: map<string, seq<PDUTarget>> := map[];
    for i := 0 to |a|
      invariant Remaining(am, Entries(a[..i]), multiset{})
    {
      hide Remaining;
      Grouped(am, Entries(a[..i]), a[i]);
      EntriesTake(a, i);
      am := am[Key(a[i]) := Lookup(am, Key(a[i]), []) + [a[i]]];
    }
    for i := 0 to |b|
      invariant Remaining(am, Entries(a), Entries(b[..i]))
    {
      var t := b[i];
      var entries := Lookup(am, Key(t), []);
      assert forall e :: e in entries ==> Key(e) == Key(t);
      hide Remaining;
      var idx := FindMatch(entries, t);
      EntriesTake(b, i);
      if idx.None? {
        Unmatched(am, Entries(a), Entries(b[..i]), t);
        return false;
      }
      Matched(am, Entries(a), Entries(b[..i]), t, idx.value);
      am := am[Key(t) := entries[..idx.value] + entries[idx.value + 1..]];
    }
    Decided(am, Entries(a), Entries(b));
    r := true;
  }

  // ---- What equal entries say about the targets

  /** A target as its owner means it. */
  datatype Identity = Identity(address: string, pduId: string, vendor: string, racks: multiset<string>)

  function IdentityOf(t: PDUTarget): Identity {
    Identity(t.address, t.pduId, t.vendor, multiset(t.rackIds))
  }

  function Identities(ts: seq<PDUTarget>): seq<Identity> {
    Map(IdentityOf, ts)
  }

  function Joined(i: Identity): Entry {
    Entry(i.address + "|" + i.pduId, i.vendor, i.racks)
  }

  lemma EntriesOfIdentities(ts: seq<PDUTarget>)
    ensures Entries(ts) == multiset(Map(Joined, Identities(ts)))
  {
    assert Map(EntryOf, ts) == Map(Joined, Identities(ts));
  }

  /** s is p followed by '|' and anything. */
  ghost predicate ContinuesWithBar(s: string, p: string) {
    |p| < |s| && s[..|p|] == p && s[|p|] == '|'
  }

  /** No address in use is another one followed by '|' and anything. */
  ghost predicate Separable(addresses: set<string>) {
    forall s, p :: s in addresses && p in addresses ==> !ContinuesWithBar(s, p)
  }

  lemma BarFreeIsSeparable(addresses: set<string>)
    requires forall s :: s in addresses ==> '|' !in s
    ensures Separable(addresses)
  {
  }

  lemma JoinedInjective(x: Identity, y: Identity)
    requires Joined(x) == Joined(y)
    ensures x == y || ContinuesWithBar(x.address, y.address) || ContinuesWithBar(y.address, x.address)
  {
    var k := Joined(x).key;
    var m, n := |x.address|, |y.address|;
    assert k[..m] == x.address && k[..n] == y.address;
    assert k[m + 1..] == x.pduId && k[n + 1..] == y.pduId;
    if m > n {
      assert x.address[..n] == k[..n] && x.address[n] == k[n] == '|';
    } else if n > m {
      assert y.address[..m] == k[..m] && y.address[m] == k[m] == '|';
    }
  }

  ghost predicate Over(addresses: set<string>, ts: seq<PDUTarget>) {
    forall t :: t in ts ==> t.address in addresses
  }

  ghost predicate Confused(a: seq<PDUTarget>, b: seq<PDUTarget>) {
    Entries(a) == Entries(b) && multiset(Identities(a)) != multiset(Identities(b))
  }

  /** Different lists of targets never compare as equal exactly when no address in use is another one followed by
      '|' and anything; in particular when addresses contain no '|'. */
  lemma DecidesExactlyWhen(addresses: set<string>)
    ensures Separable(addresses) <==>
            forall a, b :: Over(addresses, a) && Over(addresses, b) ==> !Confused(a, b)
    ensures (forall s :: s in addresses ==> '|' !in s) ==> Separable(addresses)
  {
    if forall s :: s in addresses ==> '|' !in s {
      BarFreeIsSeparable(addresses);
    }
    if Separable(addresses) {
      forall a, b | Over(addresses, a) && Over(addresses, b)
        ensures !Confused(a, b)
      {
        Decides(addresses, a, b);
      }
    } else {
      var s, p :| s in addresses && p in addresses && ContinuesWithBar(s, p);
      var a, b := Ambiguous(s, p);
      assert Over(addresses, a) && Over(addresses, b);
    }
  }

  /** Then equality means the same targets with the same multiplicities, whatever their order and that of their
      rack ids. */
  lemma Decides(addresses: set<string>, a: seq<PDUTarget>, b: seq<PDUTarget>)
    requires Separable(addresses) && Over(addresses, a) && Over(addresses, b)
    ensures Entries(a) == Entries(b) <==> multiset(Identities(a)) == multiset(Identities(b))
  {
    EntriesOfIdentities(a);
    EntriesOfIdentities(b);
    var x, y := Identities(a), Identities(b);
    forall i, j | 0 <= i < |x| && 0 <= j < |y| && Joined(x[i]) == Joined(y[j])
      ensures x[i] == y[j]
    {
      assert a[i] in a && b[j] in b;
      JoinedInjective(x[i], y[j]);
    }
    if Entries(a) == Entries(b) {
      UnpermutedImage(Joined, x, y);
    } else if multiset(x) == multiset(y) {
      PermutedImage(Joined, x, y);
    }
  }

  lemma Ambiguous(s: string, p: string) returns (a: seq<PDUTarget>, b: seq<PDUTarget>)
    requires ContinuesWithBar(s, p)
    ensures |a| == |b| == 1 && a[0].address == s && b[0].address == p
    ensures Confused(a, b)
  {
    var x := s[|p| + 1..];
    a, b := [PDUTarget(s, "", [], "")], [PDUTarget(p, x + "|", [], "")];
    assert s == p + "|" + x;
    assert Key(a[0]) == p + "|" + x + "|" + "" == p + "|" + (x + "|") == Key(b[0]);
    assert Map(EntryOf, a) == Map(EntryOf, b);
    assert Identities(a)[0] in multiset(Identities(a)) && Identities(a)[0] !in multiset(Identities(b));
  }
}
