/** Slurm's compressed notation, and that expanding it gives back the names it stands for. */
module SlurmNotation {
  import opened Seqs
  import opened Slurm

  function Pow10(w: nat): (p: nat)
    ensures p >= 1
  {
    if w == 0 then 1 else 10 * Pow10(w - 1)
  }

  /** n written with exactly w digits. */
  function Pad(n: nat, w: nat): (s: string)
    requires n < Pow10(w)
    ensures |s| == w && AllDigits(s)
  {
    if w == 0 then "" else Pad(n / 10, w - 1) + [DigitChar(n % 10)]
  }

  /** A number, or a range of numbers, all written with the same width. */
  datatype Item = One(n: nat, width: nat) | Span(lo: nat, hi: nat, width: nat)

  datatype Group = Name(text: string) | Bracketed(prefix: string, items: seq<Item>)

  predicate ItemOk(i: Item) {
    1 <= i.width <= 18 && match i case One(n, w) => n < Pow10(w) case Span(lo, hi, w) => lo <= hi < Pow10(w)
  }

  predicate Plain(s: string) {
    forall i :: 0 <= i < |s| ==> s[i] != '[' && s[i] != ']' && s[i] != ','
  }

  predicate GroupOk(g: Group) {
    match g
    case Name(t) => t != "" && Plain(t) && !IsSpace(t[0]) && !IsSpace(t[|t| - 1])
    case Bracketed(p, items) =>
      Plain(p) && (p != "" ==> !IsSpace(p[0])) && items != [] && forall i :: 0 <= i < |items| ==> ItemOk(items[i])
  }

  function FormatItem(i: Item): string
    requires ItemOk(i)
  {
    match i
    case One(n, w) => Pad(n, w)
    case Span(lo, hi, w) => Pad(lo, w) + "-" + Pad(hi, w)
  }

  function FormatItems(items: seq<Item>): (r: seq<string>)
    requires forall i :: 0 <= i < |items| ==> ItemOk(items[i])
    ensures |r| == |items| && forall i :: 0 <= i < |r| ==> r[i] == FormatItem(items[i])
  {
    seq(|items|, i requires 0 <= i < |items| => FormatItem(items[i]))
  }

  function FormatGroup(g: Group): string
    requires GroupOk(g)
  {
    match g
    case Name(t) => t
    case Bracketed(p, items) => p + "[" + Join(FormatItems(items)) + "]"
  }

  function FormatGroups(gs: seq<Group>): (r: seq<string>)
    requires forall i :: 0 <= i < |gs| ==> GroupOk(gs[i])
    ensures |r| == |gs| && forall i :: 0 <= i < |r| ==> r[i] == FormatGroup(gs[i])
  {
    seq(|gs|, i requires 0 <= i < |gs| => FormatGroup(gs[i]))
  }

  /** The names an item, a group and a list stand for. */
  function ItemNames(prefix: string, i: Item): seq<string>
    requires ItemOk(i)
  {
    match i
    case One(n, w) => [prefix + Pad(n, w)]
    case Span(lo, hi, w) => seq(hi - lo + 1, k requires 0 <= k <= hi - lo => prefix + Pad(lo + k, w))
  }

  function ItemsNames(prefix: string, items: seq<Item>): seq<string>
    requires forall i :: 0 <= i < |items| ==> ItemOk(items[i])
  {
    if items == [] then []
    else ItemsNames(prefix, items[..|items| - 1]) + ItemNames(prefix, items[|items| - 1])
  }

  function GroupNames(g: Group): seq<string>
    requires GroupOk(g)
  {
    match g
    case Name(t) => [t]
    case Bracketed(p, items) => ItemsNames(p, items)
  }

  function Names(gs: seq<Group>): seq<string>
    requires forall i :: 0 <= i < |gs| ==> GroupOk(gs[i])
  {
    if gs == [] then [] else Names(gs[..|gs| - 1]) + GroupNames(gs[|gs| - 1])
  }

  // ---- Numbers

  lemma {:induction false} PadValue(n: nat, w: nat)
    requires n < Pow10(w)
    ensures DigitsValue(Pad(n, w)) == n
  {
    if w > 0 {
      PadValue(n / 10, w - 1);
      var s := Pad(n, w);
      assert s[..w - 1] == Pad(n / 10, w - 1);
    }
  }

  lemma {:induction false} Pow10Upto(w: nat, v: nat)
    requires w <= v
    ensures Pow10(w) <= Pow10(v)
  {
    if w < v {
      Pow10Upto(w, v - 1);
    }
  }

  lemma Pow10Fits(w: nat)
    requires w <= 18
    ensures Pow10(w) <= MAX_INT
  {
    Pow10Upto(w, 18);
    assert Pow10(3) == 1_000;
    assert Pow10(6) == 1_000_000;
    assert Pow10(9) == 1_000_000_000;
    assert Pow10(12) == 1_000_000_000_000;
    assert Pow10(15) == 1_000_000_000_000_000;
    assert Pow10(18) == 1_000_000_000_000_000_000;
  }

  /** A padded number of up to 18 digits reads back as the number. */
  lemma AtoiOfPad(n: nat, w: nat)
    requires 1 <= w <= 18 && n < Pow10(w)
    ensures Atoi(Pad(n, w)) == Some(n)
  {
    Pow10Fits(w);
    PadValue(n, w);
    assert IsDigit(Pad(n, w)[0]);
  }

  lemma {:induction false} ZeroInFront(n: nat, w: nat)
    requires n < Pow10(w)
    ensures n < Pow10(w + 1) && Pad(n, w + 1) == "0" + Pad(n, w)
  {
    if w == 0 {
      assert Pad(n / 10, 0) == "";
    } else {
      ZeroInFront(n / 10, w - 1);
    }
  }

  lemma {:induction false} ZeroPadOfPad(n: nat, k: nat, w: nat)
    requires k <= w && n < Pow10(k)
    ensures n < Pow10(w) && ZeroPad(w, Pad(n, k)) == Pad(n, w)
    decreases w - k
  {
    if k < w {
      ZeroInFront(n, k);
      ZeroPadOfPad(n, k + 1, w);
    }
  }

  lemma {:induction false} DecimalIsPad(n: nat, w: nat) returns (k: nat)
    requires w >= 1 && n < Pow10(w)
    ensures 1 <= k <= w && n < Pow10(k) && Decimal(n) == Pad(n, k)
  {
    if n < 10 {
      k := 1;
      assert Pad(n / 10, 0) == "" && Pow10(1) == 10;
    } else {
      k := DecimalIsPad(n / 10, w - 1);
      k := k + 1;
    }
  }

  lemma SprintfIsPad(n: nat, w: nat)
    requires w >= 1 && n < Pow10(w)
    ensures Sprintf(w, n) == Pad(n, w)
  {
    var k := DecimalIsPad(n, w);
    ZeroPadOfPad(n, k, w);
  }

  /** The sign of a negative number is one of its characters. */
  lemma SprintfOfNegative(n: nat, w: nat)
    requires w >= 2 && 1 <= n < Pow10(w - 1)
    ensures Sprintf(w, -(n as int)) == "-" + Pad(n, w - 1)
  {
    var k := DecimalIsPad(n, w - 1);
    ZeroPadOfPad(n, k, w - 1);
  }

  // ---- Strings

  lemma {:induction false} IndexIs(s: string, c: char, i: nat, k: nat)
    requires i <= k < |s| && s[k] == c && forall j :: i <= j < k ==> s[j] != c
    ensures IndexFrom(s, c, i) == Some(k)
    decreases k - i
  {
    if i < k {
      IndexIs(s, c, i + 1, k);
    }
  }

  lemma NoIndex(s: string, c: char)
    requires c !in s
    ensures IndexFrom(s, c, 0) == None
  {
  }

  lemma TrimSolid(s: string)
    requires s != "" && !IsSpace(s[0]) && !IsSpace(s[|s| - 1])
    ensures TrimSpace(s) == s
  {
  }

  lemma {:induction false} SplitOfJoin(items: seq<string>)
    requires items != [] && forall i :: 0 <= i < |items| ==> ',' !in items[i]
    ensures SplitAt(Join(items), ',') == items
  {
    var s := Join(items);
    if |items| == 1 {
      NoIndex(s, ',');
    } else {
      var k := |items[0]|;
      assert s[..k] == items[0] && s[k] == ',' && s[k + 1..] == Join(items[1..]);
      IndexIs(s, ',', 0, k);
      SplitOfJoin(items[1..]);
    }
  }

  /** The depth at the end. */
  function Depth(s: string, i: nat, d: nat): nat
    requires i <= |s|
    decreases |s| - i
  {
    if i == |s| then d else Depth(s, i + 1, Deeper(d, s[i]))
  }

  /** A piece that the splitter keeps together and that closes all its brackets. */
  predicate Whole(p: string) {
    p != "" && NextComma(p, 0, 0) == |p| && Depth(p, 0, 0) == 0
  }

  lemma {:induction false} PastPiece(p: string, rest: string, i: nat, d: nat)
    requires i <= |p| && NextComma(p, i, d) == |p|
    ensures NextComma(p + rest, i, d) == NextComma(p + rest, |p|, Depth(p, i, d))
    decreases |p| - i
  {
    if i < |p| {
      assert (p + rest)[i] == p[i];
      PastPiece(p, rest, i + 1, Deeper(d, p[i]));
    }
  }

  /** splitTopLevelComma undoes joining. */
  lemma {:induction false} TopLevelOfJoin(parts: seq<string>)
    requires forall i :: 0 <= i < |parts| ==> Whole(parts[i])
    ensures TopLevel(Join(parts)) == parts
  {
    if |parts| == 1 {
      assert TopLevel(parts[0]) == [parts[0]];
    } else if |parts| > 1 {
      var p, rest := parts[0], Join(parts[1..]);
      var s := p + "," + rest;
      assert s == p + ("," + rest);
      PastPiece(p, "," + rest, 0, 0);
      assert s[|p|] == ',' && s[..|p|] == p && s[|p| + 1..] == rest;
      TopLevelOfJoin(parts[1..]);
    }
  }

  /** Characters that neither open, close nor separate leave the splitter where it is. */
  lemma {:induction false} PastPlain(s: string, i: nat, j: nat, d: nat)
    requires i <= j <= |s|
    requires forall k :: i <= k < j ==> s[k] != '[' && s[k] != ']' && (d == 0 ==> s[k] != ',')
    ensures NextComma(s, i, d) == NextComma(s, j, d) && Depth(s, i, d) == Depth(s, j, d)
    decreases j - i
  {
    if i < j {
      PastPlain(s, i + 1, j, d);
    }
  }

  // ---- Items

  lemma DigitsAreSolid(s: string)
    requires AllDigits(s)
    ensures forall i :: 0 <= i < |s| ==> !IsSpace(s[i]) && s[i] != '-' && s[i] != ',' && s[i] != '[' && s[i] != ']'
  {
  }

  /** The characters of a formatted item. */
  lemma ItemIsSolid(i: Item)
    requires ItemOk(i)
    ensures FormatItem(i) != ""
    ensures forall k :: 0 <= k < |FormatItem(i)| ==>
              var c := FormatItem(i)[k]; !IsSpace(c) && c != ',' && c != '[' && c != ']'
  {
    match i
    case One(n, w) => DigitsAreSolid(Pad(n, w));
    case Span(lo, hi, w) =>
      DigitsAreSolid(Pad(lo, w));
      DigitsAreSolid(Pad(hi, w));
  }

  lemma {:induction false} BetweenIs(prefix: string, w: nat, lo: nat, hi: int)
    requires 1 <= w && lo <= hi + 1 && hi < Pow10(w)
    ensures Between(prefix, w, lo, hi)
            == seq(hi - lo + 1, k requires 0 <= k <= hi - lo => prefix + Pad(lo + k, w))
    decreases hi - lo + 1
  {
    if lo <= hi {
      BetweenIs(prefix, w, lo, hi - 1);
      SprintfIsPad(hi, w);
    }
  }

  lemma ExpandItemIs(prefix: string, item: string, dash: nat, a: string, b: string)
    requires item != "" && TrimSpace(item) == item && IndexFrom(item, '-', 0) == Some(dash)
    requires dash < |item| && item[..dash] == a && item[dash + 1..] == b
    requires Atoi(a).Some? && Atoi(b).Some?
    ensures var m, n, w := Atoi(a).value, Atoi(b).value, Wider(|a|, |b|);
            ExpandItem(prefix, item) == if m > n then Between(prefix, w, n, m) else Between(prefix, w, m, n)
  {
    hide TrimSpace, Atoi, Between;
  }

  function Wider(v: nat, w: nat): nat {
    if w > v then w else v
  }

  /** Two numbers with a dash between them: both ends are padded to the larger width. */
  lemma ExpandDashed(prefix: string, a: nat, v: nat, b: nat, w: nat)
    requires 1 <= v <= 18 && 1 <= w <= 18 && a < Pow10(v) && b < Pow10(w)
    ensures ExpandItem(prefix, Pad(a, v) + "-" + Pad(b, w))
            == if a > b then Between(prefix, Wider(v, w), b, a) else Between(prefix, Wider(v, w), a, b)
  {
    var item := Pad(a, v) + "-" + Pad(b, w);
    DigitsAreSolid(Pad(a, v));
    DigitsAreSolid(Pad(b, w));
    TrimSolid(item);
    hide TrimSpace, ExpandItem, Atoi, Between, Pad, Pow10, IndexFrom;
    IndexIs(item, '-', 0, v);
    AtoiOfPad(a, v);
    AtoiOfPad(b, w);
    ExpandItemIs(prefix, item, v, Pad(a, v), Pad(b, w));
  }

  lemma ExpandOfItem(prefix: string, i: Item)
    requires ItemOk(i)
    ensures ExpandItem(prefix, FormatItem(i)) == ItemNames(prefix, i)
  {
    match i
    case One(n, w) =>
      ItemIsSolid(i);
      TrimSolid(Pad(n, w));
      DigitsAreSolid(Pad(n, w));
      NoIndex(Pad(n, w), '-');
    case Span(lo, hi, w) =>
      ExpandDashed(prefix, lo, w, hi, w);
      BetweenIs(prefix, w, lo, hi);
  }

  lemma {:induction false} ExpandOfItems(prefix: string, items: seq<Item>)
    requires forall i :: 0 <= i < |items| ==> ItemOk(items[i])
    ensures ExpandItems(prefix, FormatItems(items)) == ItemsNames(prefix, items)
  {
    if items != [] {
      hide ExpandItem, ItemNames, FormatItem;
      var n := |items| - 1;
      ExpandOfItems(prefix, items[..n]);
      ExpandOfItem(prefix, items[n]);
      assert FormatItems(items)[..n] == FormatItems(items[..n]);
    }
  }

  // ---- Groups

  lemma {:induction false} BodyIsSolid(items: seq<string>)
    requires forall i, k :: 0 <= i < |items| && 0 <= k < |items[i]| ==> items[i][k] != '[' && items[i][k] != ']'
    ensures forall k :: 0 <= k < |Join(items)| ==> Join(items)[k] != '[' && Join(items)[k] != ']'
  {
    if |items| > 1 {
      BodyIsSolid(items[1..]);
    }
  }

  lemma BodyOf(items: seq<Item>)
    requires items != [] && forall i :: 0 <= i < |items| ==> ItemOk(items[i])
    ensures var body := Join(FormatItems(items));
            && (forall k :: 0 <= k < |body| ==> body[k] != '[' && body[k] != ']')
            && SplitAt(body, ',') == FormatItems(items)
  {
    hide FormatItem, ItemOk;
    forall i | 0 <= i < |items|
      ensures ',' !in FormatItem(items[i])
      ensures forall k :: 0 <= k < |FormatItem(items[i])| ==>
                FormatItem(items[i])[k] != '[' && FormatItem(items[i])[k] != ']'
    {
      ItemIsSolid(items[i]);
    }
    BodyIsSolid(FormatItems(items));
    SplitOfJoin(FormatItems(items));
  }

  lemma BracketedIsWhole(p: string, body: string)
    requires Plain(p) && forall k :: 0 <= k < |body| ==> body[k] != '[' && body[k] != ']'
    ensures Whole(p + "[" + body + "]")
  {
    var s := p + "[" + body + "]";
    var m := |p| + 1 + |body|;
    assert s[|p|] == '[' && s[m] == ']' && |s| == m + 1;
    assert forall k :: 0 <= k < |p| ==> s[k] == p[k];
    assert forall k :: |p| + 1 <= k < m ==> s[k] == body[k - |p| - 1];
    PastPlain(s, 0, |p|, 0);
    PastPlain(s, |p| + 1, m, 1);
  }

  lemma GroupIsWhole(g: Group)
    requires GroupOk(g)
    ensures Whole(FormatGroup(g))
  {
    match g
    case Name(t) => PastPlain(t, 0, |t|, 0);
    case Bracketed(p, items) =>
      BodyOf(items);
      BracketedIsWhole(p, Join(FormatItems(items)));
  }

  /** The characters of a bracketed part. */
  lemma BracketedShape(p: string, body: string, suffix: string) returns (s: string)
    ensures s == p + "[" + body + "]" + suffix && |s| == |p| + |body| + 2 + |suffix|
    ensures s[..|p|] == p && s[|p|] == '['
    ensures s[|p| + 1..|p| + 1 + |body|] == body && s[|p| + 1 + |body|] == ']'
    ensures s[0] == if p == "" then '[' else p[0]
    ensures s[|s| - 1] == if suffix == "" then ']' else suffix[|suffix| - 1]
  {
    s := p + "[" + body + "]" + suffix;
  }

  lemma ExpandPartIs(s: string, open: nat, close: nat)
    requires s != "" && TrimSpace(s) == s
    requires IndexFrom(s, '[', 0) == Some(open) && IndexFrom(s, ']', open) == Some(close)
    ensures open < close < |s|
    ensures ExpandPart(s) == ExpandItems(s[..open], SplitAt(s[open + 1..close], ','))
  {
    hide TrimSpace, SplitAt, ExpandItems;
  }

  lemma IndexInShape(s: string, p: string, body: string)
    requires |p| + 1 + |body| < |s| && s[..|p|] == p && s[|p|] == '['
    requires s[|p| + 1..|p| + 1 + |body|] == body && s[|p| + 1 + |body|] == ']'
    requires Plain(p) && forall k :: 0 <= k < |body| ==> body[k] != '[' && body[k] != ']'
    ensures IndexFrom(s, '[', 0) == Some(|p|) && IndexFrom(s, ']', |p|) == Some(|p| + 1 + |body|)
  {
    hide IndexFrom;
    var m := |p| + 1 + |body|;
    assert forall k :: 0 <= k < |p| ==> s[k] == s[..|p|][k];
    assert forall k :: |p| < k < m ==> s[k] == s[|p| + 1..m][k - |p| - 1];
    IndexIs(s, '[', 0, |p|);
    IndexIs(s, ']', |p|, m);
  }

  /** A bracketed part, whatever follows its bracket. */
  lemma ExpandBracketed(p: string, body: string, suffix: string)
    requires Plain(p) && (p != "" ==> !IsSpace(p[0]))
    requires forall k :: 0 <= k < |body| ==> body[k] != '[' && body[k] != ']'
    requires suffix != "" ==> !IsSpace(suffix[|suffix| - 1])
    ensures ExpandPart(p + "[" + body + "]" + suffix) == ExpandItems(p, SplitAt(body, ','))
  {
    hide TrimSpace, SplitAt, ExpandItems, ExpandPart, IndexFrom, IsSpace, Plain;
    var s := BracketedShape(p, body, suffix);
    assert !IsSpace('[') && !IsSpace(']') by { BracketsAreSolid(); }
    TrimSolid(s);
    IndexInShape(s, p, body);
    ExpandPartIs(s, |p|, |p| + 1 + |body|);
  }

  lemma BracketsAreSolid()
    ensures !IsSpace('[') && !IsSpace(']')
  {
  }

  lemma ExpandOfGroup(g: Group)
    requires GroupOk(g)
    ensures ExpandPart(FormatGroup(g)) == GroupNames(g)
  {
    match g
    case Name(t) =>
      TrimSolid(t);
      NoIndex(t, '[');
    case Bracketed(p, items) =>
      hide ExpandItems, ExpandPart, ItemOk;
      BodyOf(items);
      ExpandBracketed(p, Join(FormatItems(items)), "");
      assert p + "[" + Join(FormatItems(items)) + "]" + "" == FormatGroup(g);
      ExpandOfItems(p, items);
  }

  lemma {:induction false} ExpandOfGroups(gs: seq<Group>)
    requires forall i :: 0 <= i < |gs| ==> GroupOk(gs[i])
    ensures ExpandParts(FormatGroups(gs)) == Names(gs)
  {
    if gs != [] {
      hide ExpandPart, GroupNames, FormatGroup, FormatGroups, GroupOk, ExpandParts, Names;
      var n := |gs| - 1;
      var front, last := gs[..n], gs[n];
      ExpandOfGroups(front);
      ExpandOfGroup(last);
      LastGroup(gs);
      LastNames(gs);
    }
  }

  lemma LastGroup(gs: seq<Group>)
    requires gs != [] && forall i :: 0 <= i < |gs| ==> GroupOk(gs[i])
    ensures var n := |gs| - 1;
            ExpandParts(FormatGroups(gs)) == ExpandParts(FormatGroups(gs[..n])) + ExpandPart(FormatGroup(gs[n]))
  {
    hide ExpandPart, FormatGroup, GroupOk, ExpandParts, FormatGroups;
    FrontParts(gs, |gs| - 1);
    LastPart(FormatGroups(gs));
  }

  lemma FrontParts(gs: seq<Group>, n: nat)
    requires n <= |gs| && forall i :: 0 <= i < |gs| ==> GroupOk(gs[i])
    ensures FormatGroups(gs)[..n] == FormatGroups(gs[..n])
  {
    hide FormatGroup, GroupOk;
  }

  lemma LastPart(parts: seq<string>)
    requires parts != []
    ensures ExpandParts(parts) == ExpandParts(parts[..|parts| - 1]) + ExpandPart(parts[|parts| - 1])
  {
    hide ExpandPart;
  }

  lemma LastNames(gs: seq<Group>)
    requires gs != [] && forall i :: 0 <= i < |gs| ==> GroupOk(gs[i])
    ensures Names(gs) == Names(gs[..|gs| - 1]) + GroupNames(gs[|gs| - 1])
  {
    hide GroupNames, GroupOk;
  }

  /** Expanding a list in compressed notation gives the names it stands for, in order. */
  lemma ExpandInvertsFormat(gs: seq<Group>)
    requires forall i :: 0 <= i < |gs| ==> GroupOk(gs[i])
    ensures Expand(Join(FormatGroups(gs))) == Names(gs)
  {
    forall i | 0 <= i < |gs|
      ensures Whole(FormatGroups(gs)[i])
    {
      GroupIsWhole(gs[i]);
    }
    TopLevelOfJoin(FormatGroups(gs));
    ExpandOfGroups(gs);
  }

  /** A range of equally wide numbers stands for hi - lo + 1 different names of the same length. */
  lemma SpanNamesDistinct(prefix: string, lo: nat, hi: nat, w: nat)
    requires ItemOk(Span(lo, hi, w))
    ensures var names := ItemNames(prefix, Span(lo, hi, w));
            && |names| == hi - lo + 1
            && (forall i :: 0 <= i < |names| ==> |names[i]| == |prefix| + w)
            && (forall i, j :: 0 <= i < j < |names| ==> names[i] != names[j])
  {
    var names := ItemNames(prefix, Span(lo, hi, w));
    assert forall i :: 0 <= i < |names| ==> names[i] == prefix + Pad(lo + i, w);
    hide ItemNames, ItemOk, Pow10, Pad;
    forall i, j | 0 <= i < j < |names|
      ensures names[i] != names[j]
    {
      PadsDiffer(prefix, lo + i, lo + j, w);
    }
  }

  lemma PadsDiffer(prefix: string, m: nat, n: nat, w: nat)
    requires m < n < Pow10(w)
    ensures prefix + Pad(m, w) != prefix + Pad(n, w)
  {
    PadValue(m, w);
    PadValue(n, w);
    hide Pad, Pow10, DigitsValue;
    assert (prefix + Pad(m, w))[|prefix|..] == Pad(m, w) && (prefix + Pad(n, w))[|prefix|..] == Pad(n, w);
  }

  /** A range written backwards stands for the same names. */
  lemma BackwardsRange(prefix: string, lo: nat, hi: nat, w: nat)
    requires ItemOk(Span(lo, hi, w))
    ensures ExpandItem(prefix, Pad(hi, w) + "-" + Pad(lo, w)) == ItemNames(prefix, Span(lo, hi, w))
  {
    ExpandDashed(prefix, hi, w, lo, w);
    BetweenIs(prefix, w, lo, hi);
  }

  /** A range whose ends are written with different widths is padded to the larger: "n[8-10]" stands for n08, n09,
      n10. The numbers come out as wide as the first was written, as they do when all are written alike, exactly
      when it is written at least as wide as the last. */
  lemma MixedWidths(prefix: string, lo: nat, v: nat, hi: nat, w: nat)
    requires 1 <= v <= 18 && 1 <= w <= 18 && lo < Pow10(v) && lo <= hi < Pow10(w)
    ensures var names := ExpandItem(prefix, Pad(lo, v) + "-" + Pad(hi, w));
            && |names| == hi - lo + 1
            && (forall k :: 0 <= k <= hi - lo ==>
                  lo + k < Pow10(Wider(v, w)) && names[k] == prefix + Pad(lo + k, Wider(v, w)))
            && (names[0] == prefix + Pad(lo, v) <==> v >= w)
  {
    hide Pow10, Pad, Between, ExpandItem;
    ExpandDashed(prefix, lo, v, hi, w);
    Pow10Upto(w, Wider(v, w));
    hide Wider;
    BetweenIs(prefix, Wider(v, w), lo, hi);
    WidthShows(prefix, lo, v, w);
  }

  lemma WidthShows(prefix: string, n: nat, v: nat, w: nat)
    requires n < Pow10(v) && n < Pow10(Wider(v, w))
    ensures prefix + Pad(n, Wider(v, w)) == prefix + Pad(n, v) <==> v >= w
  {
    hide Pow10, Pad;
    assert |prefix + Pad(n, Wider(v, w))| == |prefix| + Wider(v, w) && |prefix + Pad(n, v)| == |prefix| + v;
  }

  /** Text behind the closing bracket is lost: "a[1-2]-ib" expands like "a[1-2]". */
  lemma SuffixIsDropped(p: string, items: seq<Item>, suffix: string)
    requires GroupOk(Bracketed(p, items)) && (suffix != "" ==> !IsSpace(suffix[|suffix| - 1]))
    ensures ExpandPart(FormatGroup(Bracketed(p, items)) + suffix) == GroupNames(Bracketed(p, items))
  {
    hide ExpandItems, ExpandPart, ItemOk;
    BodyOf(items);
    ExpandBracketed(p, Join(FormatItems(items)), suffix);
    ExpandOfItems(p, items);
  }

  /** The names a group with a suffix stands for. */
  function Suffixed(names: seq<string>, suffix: string): (r: seq<string>)
    ensures |r| == |names| && forall i :: 0 <= i < |r| ==> r[i] == names[i] + suffix
  {
    seq(|names|, i requires 0 <= i < |names| => names[i] + suffix)
  }

  lemma {:induction false} SomeName(p: string, items: seq<Item>)
    requires items != [] && forall i :: 0 <= i < |items| ==> ItemOk(items[i])
    ensures ItemsNames(p, items) != []
  {
    assert ItemNames(p, items[|items| - 1]) != [];
  }

  /** So a bracketed group with text behind its bracket expands to the names it stands for exactly when that text is
      empty. */
  lemma SuffixKeptExactlyWhen(p: string, items: seq<Item>, suffix: string)
    requires GroupOk(Bracketed(p, items)) && (suffix != "" ==> !IsSpace(suffix[|suffix| - 1]))
    ensures ExpandPart(FormatGroup(Bracketed(p, items)) + suffix) == Suffixed(GroupNames(Bracketed(p, items)), suffix)
            <==> suffix == ""
  {
    SuffixIsDropped(p, items, suffix);
    SomeName(p, items);
    hide ExpandPart, FormatGroup, ItemsNames, GroupOk;
    var names := GroupNames(Bracketed(p, items));
    if suffix == "" {
      assert forall i :: 0 <= i < |names| ==> names[i] + suffix == names[i];
    } else {
      assert |names[0] + suffix| > |names[0]|;
    }
  }

  // ---- What the notation does not cover

  predicate Blank(s: string) {
    forall i :: 0 <= i < |s| ==> IsSpace(s[i])
  }

  /** The 25 blanks: the five controls from tab to carriage return, space, next line, no-break space, and the spaces
      and separators of the further planes. */
  lemma BlankCharacters(c: char)
    ensures IsSpace(c) <==>
            c as int in {9, 10, 11, 12, 13, 32, 133, 160, 5760, 8192, 8193, 8194, 8195, 8196, 8197, 8198, 8199, 8200,
                         8201, 8202, 8232, 8233, 8239, 8287, 12288}
  {
  }

  lemma {:induction false} TrimFront(a: string, s: string)
    requires Blank(a)
    ensures TrimSpace(a + s) == TrimSpace(s)
  {
    if a == "" {
      assert a + s == s;
    } else {
      assert (a + s)[1..] == a[1..] + s;
      TrimFront(a[1..], s);
    }
  }

  lemma {:induction false} TrimBack(s: string, b: string)
    requires Blank(b)
    ensures TrimSpace(s + b) == TrimSpace(s)
    decreases |s| + |b|
  {
    if b == "" {
      assert s + b == s;
    } else if s == "" {
      TrimFront(b, "");
      assert s + b == b + "";
    } else if IsSpace(s[0]) {
      assert (s + b)[1..] == s[1..] + b;
      TrimBack(s[1..], b);
    } else {
      var n := |b| - 1;
      assert (s + b)[..|s + b| - 1] == s + b[..n];
      TrimBack(s, b[..n]);
    }
  }

  /** What TrimSpace takes off are blanks, and it takes off all at either end. */
  lemma {:induction false} TrimSpaceIs(s: string) returns (a: string, b: string)
    ensures s == a + TrimSpace(s) + b && Blank(a) && Blank(b)
    ensures TrimSpace(s) != "" ==> !IsSpace(TrimSpace(s)[0]) && !IsSpace(TrimSpace(s)[|TrimSpace(s)| - 1])
    decreases |s|
  {
    a, b := "", "";
    if s == "" {
    } else if IsSpace(s[0]) {
      a, b := TrimSpaceIs(s[1..]);
      BlankCons(s[0], a);
      OneMoreAround(s[0], a, TrimSpace(s), b);
      hide IsSpace, TrimSpace, Blank;
      assert s == [s[0]] + s[1..];
      a := [s[0]] + a;
    } else if IsSpace(s[|s| - 1]) {
      var n := |s| - 1;
      a, b := TrimSpaceIs(s[..n]);
      BlankSnoc(b, s[n]);
      OneMoreAround(s[n], a, TrimSpace(s), b);
      hide IsSpace, TrimSpace, Blank;
      assert s == s[..n] + [s[n]];
      b := b + [s[n]];
    } else {
      assert s == "" + s + "";
    }
  }

  lemma BlankCons(c: char, s: string)
    requires IsSpace(c) && Blank(s)
    ensures Blank([c] + s)
  {
    hide IsSpace;
  }

  lemma BlankSnoc(s: string, c: char)
    requires IsSpace(c) && Blank(s)
    ensures Blank(s + [c])
  {
    hide IsSpace;
  }

  /** Blanks around a part or an item change nothing, and by themselves stand for nothing. */
  lemma BlanksDoNotMatter(prefix: string, a: string, s: string, b: string)
    requires Blank(a) && Blank(b)
    ensures ExpandItem(prefix, a + s + b) == ExpandItem(prefix, s) && ExpandPart(a + s + b) == ExpandPart(s)
    ensures ExpandItem(prefix, a) == [] && ExpandPart(a) == []
  {
    hide ExpandItem, ExpandPart, TrimSpace, Blank;
    TrimBack(a + s, b);
    TrimFront(a, s);
    SameTrimmed(prefix, a + s + b, s);
    TrimFront(a, "");
    assert a + "" == a;
    SameTrimmed(prefix, a, "");
    NothingIn(prefix);
  }

  lemma SameTrimmed(prefix: string, x: string, y: string)
    requires TrimSpace(x) == TrimSpace(y)
    ensures ExpandItem(prefix, x) == ExpandItem(prefix, y) && ExpandPart(x) == ExpandPart(y)
  {
    hide TrimSpace, Atoi, IndexFrom, Between, SplitAt, ExpandItems;
  }

  lemma NothingIn(prefix: string)
    ensures ExpandItem(prefix, "") == [] && ExpandPart("") == []
  {
  }

  /** An item that is no range of numbers is taken as it is, behind the prefix. */
  lemma OtherItems(prefix: string, item: string)
    requires item != "" && !IsSpace(item[0]) && !IsSpace(item[|item| - 1])
    requires forall i :: 0 <= i < |item| && item[i] == '-' && '-' !in item[..i] ==>
               Atoi(item[..i]).None? || Atoi(item[i + 1..]).None?
    ensures ExpandItem(prefix, item) == [prefix + item]
  {
    TrimSolid(item);
    hide TrimSpace, Atoi;
    var dash := IndexFrom(item, '-', 0);
    if dash.Some? {
      assert item[0..dash.value] == item[..dash.value];
    }
  }

  /** A part without a bracket, or whose bracket is never closed, is a name. */
  lemma OtherParts(p: string)
    requires p != "" && !IsSpace(p[0]) && !IsSpace(p[|p| - 1])
    requires forall i :: 0 <= i < |p| && p[i] == '[' && '[' !in p[..i] ==> ']' !in p[i..]
    ensures ExpandPart(p) == [p]
  {
    TrimSolid(p);
    hide TrimSpace, ExpandItems;
    var open := IndexFrom(p, '[', 0);
    if open.Some? {
      assert p[0..open.value] == p[..open.value];
    }
  }

  /** A number is one or more digits, with a sign or without, that fit 64 bits; nothing else is. */
  lemma AtoiIs(digits: string)
    requires digits != "" && AllDigits(digits)
    ensures var v: int := DigitsValue(digits);
            && Atoi(digits) == (if v < 0x8000_0000_0000_0000 then Some(v) else None)
            && Atoi("+" + digits) == (if v < 0x8000_0000_0000_0000 then Some(v) else None)
            && Atoi("-" + digits) == (if v <= 0x8000_0000_0000_0000 then Some(-v) else None)
  {
    assert ("+" + digits)[1..] == digits && ("-" + digits)[1..] == digits;
    assert IsDigit(digits[0]);
  }

  lemma NotANumber(s: string)
    requires || s == "" || s == "+" || s == "-"
             || exists i :: 0 <= i < |s| && !IsDigit(s[i]) && (i == 0 ==> !IsSign(s[0]))
    ensures Atoi(s).None?
  {
    if i :| 0 <= i < |s| && !IsDigit(s[i]) && (i == 0 ==> !IsSign(s[0])) {
      assert i > 0 ==> s[1..][i - 1] == s[i];
    }
  }

  /** Opening brackets less closing ones. */
  function Open(s: string): int {
    if s == "" then 0
    else Open(s[..|s| - 1]) + if s[|s| - 1] == '[' then 1 else if s[|s| - 1] == ']' then -1 else 0
  }

  lemma {:induction false} CommaFrom(s: string, i: nat, d: nat)
    requires i <= |s| && d == Open(s[..i]) && forall j :: 0 <= j <= |s| ==> Open(s[..j]) >= 0
    ensures var k := NextComma(s, i, d);
            && (k < |s| ==> Open(s[..k]) == 0)
            && forall j :: i <= j < k && s[j] == ',' ==> Open(s[..j]) > 0
    decreases |s| - i
  {
    if i < |s| {
      assert s[..i + 1][..i] == s[..i];
      assert Open(s[..i + 1]) >= 0;
      CommaFrom(s, i + 1, Deeper(d, s[i]));
    }
  }

  /** In a list that never closes more brackets than it has opened, the first piece ends at the first comma that is
      inside none. */
  lemma FirstPieceEnds(s: string)
    requires forall j :: 0 <= j <= |s| ==> Open(s[..j]) >= 0
    ensures var k := NextComma(s, 0, 0);
            && (k < |s| ==> s[k] == ',' && Open(s[..k]) == 0)
            && (forall j :: 0 <= j < k && s[j] == ',' ==> Open(s[..j]) > 0)
            && (s != "" ==> TopLevel(s)[0] == s[..k])
            && (k < |s| ==> TopLevel(s)[1..] == TopLevel(s[k + 1..]))
  {
    assert s[..0] == "" && s[..|s|] == s;
    CommaFrom(s, 0, 0);
    hide Open, NextComma;
  }
}
