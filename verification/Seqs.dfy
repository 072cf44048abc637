/** Vocabulary shared by the models: optional values, bytes, concatenation of a list of lists, element-wise images,
    in-order subsequences and suffixes. */
module Seqs {

  datatype Option<+T> = None | Some(value: T)

  type byte = x: int | 0 <= x < 256

  function Larger(a: int, b: int): int {
    if a >= b then a else b
  }

  /** The list of at most one element. */
  function Maybe<T>(o: Option<T>): seq<T> {
    if o.Some? then [o.value] else []
  }

  /** The lists of ss, joined in order. */
  function Flatten<T>(ss: seq<seq<T>>): seq<T> {
    if ss == [] then [] else ss[0] + Flatten(ss[1..])
  }

  lemma {:induction false} FlattenConcat<T>(a: seq<seq<T>>, b: seq<seq<T>>)
    ensures Flatten(a + b) == Flatten(a) + Flatten(b)
  {
    if a == [] {
      assert a + b == b;
    } else {
      FlattenConcat(a[1..], b);
      assert (a + b)[1..] == a[1..] + b;
      assert a[0] + (Flatten(a[1..]) + Flatten(b)) == a[0] + Flatten(a[1..]) + Flatten(b);
    }
  }

  lemma FlattenOne<T>(s: seq<T>)
    ensures Flatten([s]) == s
  {
    assert [s][1..] == [];
  }

  lemma FlattenSnoc<T>(a: seq<seq<T>>, s: seq<T>)
    ensures Flatten(a + [s]) == Flatten(a) + s
  {
    FlattenConcat(a, [s]);
    FlattenOne(s);
  }

  /** Appending x to the last list appends it to the whole. */
  lemma FlattenGrowLast<T>(ss: seq<seq<T>>, x: T)
    requires ss != []
    ensures Flatten(ss[|ss| - 1 := ss[|ss| - 1] + [x]]) == Flatten(ss) + [x]
  {
    var n := |ss| - 1;
    assert ss == ss[..n] + [ss[n]];
    assert ss[n := ss[n] + [x]] == ss[..n] + [ss[n] + [x]];
    FlattenSnoc(ss[..n], ss[n]);
    FlattenSnoc(ss[..n], ss[n] + [x]);
  }

  lemma FlattenSplit<T>(ss: seq<seq<T>>, k: nat)
    requires k <= |ss|
    ensures Flatten(ss) == Flatten(ss[..k]) + Flatten(ss[k..])
  {
    assert ss == ss[..k] + ss[k..];
    FlattenConcat(ss[..k], ss[k..]);
  }

  /** Replacing the list at i replaces its stretch of the whole. */
  lemma FlattenAround<T>(ss: seq<seq<T>>, i: nat, x: seq<T>)
    requires i < |ss|
    ensures Flatten(ss[i := x]) == Flatten(ss[..i]) + x + Flatten(ss[i + 1..])
  {
    hide Flatten;
    assert ss[i := x] == ss[..i] + [x] + ss[i + 1..];
    FlattenConcat(ss[..i] + [x], ss[i + 1..]);
    FlattenSnoc(ss[..i], x);
  }

  lemma FlattenTakeNext<T>(all: seq<seq<T>>, k: nat)
    requires k < |all|
    ensures Flatten(all[..k + 1]) == Flatten(all[..k]) + all[k]
  {
    hide Flatten;
    FlattenSnoc(all[..k], all[k]);
    assert all[..k + 1] == all[..k] + [all[k]];
  }

  /** a can be obtained from b by deleting elements: order is kept, nothing is added or duplicated. */
  ghost predicate Subseq<T>(a: seq<T>, b: seq<T>) {
    if a == [] then true
    else if b == [] then false
    else (a[0] == b[0] && Subseq(a[1..], b[1..])) || Subseq(a, b[1..])
  }

  lemma {:induction false} SubseqRefl<T>(a: seq<T>)
    ensures Subseq(a, a)
  {
    if a != [] {
      SubseqRefl(a[1..]);
    }
  }

  lemma {:induction false} SubseqLength<T>(a: seq<T>, b: seq<T>)
    requires Subseq(a, b)
    ensures |a| <= |b|
    ensures |a| == |b| ==> a == b
  {
    if a == [] {
    } else if a[0] == b[0] && Subseq(a[1..], b[1..]) {
      SubseqLength(a[1..], b[1..]);
      assert a == [a[0]] + a[1..];
    } else {
      SubseqLength(a, b[1..]);
    }
  }

  lemma {:induction false} SubseqTrans<T>(a: seq<T>, b: seq<T>, c: seq<T>)
    requires Subseq(a, b) && Subseq(b, c)
    ensures Subseq(a, c)
    decreases |b| + |c|
  {
    if a != [] {
      if b[0] == c[0] && Subseq(b[1..], c[1..]) {
        if a[0] == b[0] && Subseq(a[1..], b[1..]) {
          SubseqTrans(a[1..], b[1..], c[1..]);
        } else {
          SubseqTrans(a, b[1..], c[1..]);
        }
      } else {
        SubseqTrans(a, b, c[1..]);
      }
    }
  }

  lemma {:induction false} SubseqConcat<T>(a: seq<T>, b: seq<T>, c: seq<T>, d: seq<T>)
    requires Subseq(a, b) && Subseq(c, d)
    ensures Subseq(a + c, b + d)
    decreases |b|
  {
    if b == [] {
      assert a + c == c && b + d == d;
    } else {
      assert (b + d)[1..] == b[1..] + d;
      if a != [] && a[0] == b[0] && Subseq(a[1..], b[1..]) {
        SubseqConcat(a[1..], b[1..], c, d);
        assert (a + c)[1..] == a[1..] + c;
      } else {
        assert Subseq(a, b[1..]);
        SubseqConcat(a, b[1..], c, d);
        assert a + c == [] || Subseq(a + c, (b + d)[1..]);
      }
    }
  }

  lemma SubseqNil<T>(b: seq<T>)
    ensures Subseq([], b)
  {
  }

  /** Deleting a stretch in the middle leaves an in-order subsequence. */
  lemma SubseqDrop<T>(a: seq<T>, m: seq<T>, c: seq<T>)
    ensures Subseq(a + c, a + m + c)
  {
    SubseqRefl(a);
    SubseqRefl(c);
    SubseqNil(m);
    SubseqConcat(a, a, [], m);
    assert a + [] == a;
    SubseqConcat(a, a + m, c, c);
  }

  lemma SubseqPrefix<T>(a: seq<T>, b: seq<T>)
    requires a <= b
    ensures Subseq(a, b)
  {
    SubseqDrop(a, b[|a|..], []);
    assert a + [] == a && a + b[|a|..] + [] == b;
  }

  lemma SubseqFront<T>(a: seq<T>, b: seq<T>, c: seq<T>)
    requires Subseq(a + b, c)
    ensures Subseq(a, c)
  {
    SubseqPrefix(a, a + b);
    SubseqTrans(a, a + b, c);
  }

  /** Selections from the first lists make up a selection from all of them. */
  lemma {:induction false} SubseqFlatten<T>(parts: seq<seq<T>>, all: seq<seq<T>>)
    requires |parts| <= |all| && forall i :: 0 <= i < |parts| ==> Subseq(parts[i], all[i])
    ensures Subseq(Flatten(parts), Flatten(all))
  {
    if parts == [] {
      SubseqNil(Flatten(all));
    } else {
      SubseqFlatten(parts[1..], all[1..]);
      SubseqConcat(parts[0], all[0], Flatten(parts[1..]), Flatten(all[1..]));
    }
  }

  /** Leaving out at most one more element. */
  lemma SubseqSkip<T>(a: seq<T>, b: seq<T>, b': seq<T>, c: seq<T>)
    requires Subseq(a + b, c) && (b' == b || exists x :: b == [x] + b')
    ensures Subseq(a + b', c)
  {
    if b' != b {
      var x :| b == [x] + b';
      SubseqDrop(a, [x], b');
      assert a + [x] + b' == a + b;
      SubseqTrans(a + b', a + b, c);
    }
  }

  /** The last n elements, or all of them when there are fewer. */
  function LastN<T>(n: nat, s: seq<T>): (r: seq<T>)
    ensures |r| <= n && |r| <= |s|
  {
    if |s| <= n then s else s[|s| - n..]
  }

  lemma LastNIsTheEnd<T>(n: nat, s: seq<T>)
    ensures |LastN(n, s)| == (if |s| <= n then |s| else n) && s == s[..|s| - |LastN(n, s)|] + LastN(n, s)
  {
  }

  /** Trimming early does not change what a later trim keeps. */
  lemma LastNAbsorbs<T>(n: nat, a: seq<T>, b: seq<T>)
    ensures LastN(n, LastN(n, a) + b) == LastN(n, a + b)
  {
  }

  lemma DropOfConcat<T>(s: seq<T>, more: seq<T>, a: nat)
    requires a <= |s|
    ensures s[a..] + more == (s + more)[a..]
  {
  }

  /** The last n of what two drops leave. */
  lemma LastOfDrops<T>(n: nat, s: seq<T>, a: nat, m: nat)
    requires a + m <= |s|
    ensures LastN(n, s[a..][m..]) == s[if |s| - (a + m) <= n then a + m else |s| - n..]
  {
    assert s[a..][m..] == s[a + m..];
  }

  lemma TakeFromTail<T>(s: seq<T>, i: nat)
    requires i < |s|
    ensures s[..i + 1] == [s[0]] + s[1..][..i]
  {
  }

  lemma PrefixOfConcat<T>(a: seq<T>, b: seq<T>, k: nat)
    requires |a| <= k <= |a| + |b|
    ensures (a + b)[..k] == a + b[..k - |a|]
  {
  }

  /** One more element at either end. */
  lemma OneMoreAround<T>(x: T, a: seq<T>, t: seq<T>, b: seq<T>)
    ensures [x] + (a + t + b) == ([x] + a) + t + b
    ensures (a + t + b) + [x] == a + t + (b + [x])
  {
  }

  lemma AroundOne<T>(s: seq<T>, k: nat)
    requires k < |s|
    ensures s == s[..k] + [s[k]] + s[k + 1..]
  {
  }

  lemma DropSnoc<T>(s: seq<T>, k: nat)
    requires k < |s|
    ensures s[..|s| - 1][k..] + [s[|s| - 1]] == s[k..]
  {
  }

  /** The images of the elements of s, in order. */
  function Map<A, B>(f: A -> B, s: seq<A>): (r: seq<B>)
    ensures |r| == |s| && forall i :: 0 <= i < |s| ==> r[i] == f(s[i])
  {
    seq(|s|, i requires 0 <= i < |s| => f(s[i]))
  }

  function Without<T>(xs: seq<T>, j: nat): (r: seq<T>)
    requires j < |xs|
    ensures |r| == |xs| - 1
  {
    xs[..j] + xs[j + 1..]
  }

  /** Taking one occurrence of s[i] out of a multiset is removing it from the list. */
  lemma RemoveAt<T>(s: seq<T>, i: nat)
    requires i < |s|
    ensures multiset(s) == multiset{s[i]} + multiset(Without(s, i))
  {
    assert s == s[..i] + [s[i]] + s[i + 1..];
  }

  lemma MapWithout<A, B>(f: A -> B, s: seq<A>, i: nat)
    requires i < |s|
    ensures Map(f, Without(s, i)) == Without(Map(f, s), i)
  {
  }

  /** The first element of a list has its counterpart in any permutation of it. */
  lemma Locate<T>(a: seq<T>, b: seq<T>) returns (j: nat)
    requires a != [] && multiset(a) == multiset(b)
    ensures j < |b| && b[j] == a[0]
    ensures multiset(Without(a, 0)) == multiset(Without(b, j))
  {
    assert a[0] in multiset(b);
    j :| 0 <= j < |b| && b[j] == a[0];
    hide Without;
    RemoveAt(a, 0);
    RemoveAt(b, j);
    Cancel(multiset{a[0]}, multiset(Without(a, 0)), multiset(Without(b, j)));
  }

  lemma PermutedNil<T>(a: seq<T>, b: seq<T>)
    requires multiset(a) == multiset(b)
    ensures |a| == |b|
  {
    assert |multiset(a)| == |multiset(b)|;
  }

  lemma PermutedTails<T>(a: seq<T>, b: seq<T>)
    requires multiset(a) == multiset(b) && a != [] && b != [] && a[0] == b[0]
    ensures multiset(a[1..]) == multiset(b[1..])
  {
    assert Without(a, 0) == a[1..] && Without(b, 0) == b[1..];
    hide Without;
    RemoveAt(a, 0);
    RemoveAt(b, 0);
    Cancel(multiset{a[0]}, multiset(a[1..]), multiset(b[1..]));
  }

  lemma Cancel<T>(x: multiset<T>, y: multiset<T>, z: multiset<T>)
    requires x + y == x + z
    ensures y == z
  {
    assert y == (x + y) - x;
    assert z == (x + z) - x;
  }

  lemma {:induction false} PermutedImage<A, B>(f: A -> B, a: seq<A>, b: seq<A>)
    requires multiset(a) == multiset(b)
    ensures multiset(Map(f, a)) == multiset(Map(f, b))
    decreases |a|
  {
    PermutedNil(a, b);
    if a != [] {
      var j := Locate(a, b);
      hide Without;
      PermutedImage(f, Without(a, 0), Without(b, j));
      MapWithout(f, a, 0);
      MapWithout(f, b, j);
      RemoveAt(Map(f, a), 0);
      RemoveAt(Map(f, b), j);
    }
  }

  /** Lists whose images under a function that tells their elements apart are permutations of each other are
      permutations of each other. */
  lemma {:induction false} UnpermutedImage<A, B>(f: A -> B, a: seq<A>, b: seq<A>)
    requires multiset(Map(f, a)) == multiset(Map(f, b))
    requires forall i, j :: 0 <= i < |a| && 0 <= j < |b| && f(a[i]) == f(b[j]) ==> a[i] == b[j]
    ensures multiset(a) == multiset(b)
    decreases |a|
  {
    PermutedNil(Map(f, a), Map(f, b));
    if a != [] {
      var j := Locate(Map(f, a), Map(f, b));
      MapWithout(f, a, 0);
      MapWithout(f, b, j);
      UnpermutedImage(f, Without(a, 0), Without(b, j));
      hide Without, Map;
      RemoveAt(a, 0);
      RemoveAt(b, j);
    }
  }
}
