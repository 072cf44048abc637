/** Expansion of Slurm's compressed node lists (internal/adapter/slurm/client.go). */
module Slurm {
  import opened Seqs

  // ---- Library calls

  /** unicode.IsSpace. */
  predicate IsSpace(c: char) {
    var n := c as int;
    || 9 <= n <= 13 || n == 32 || n == 0x85 || n == 0xA0 || n == 0x1680 || 0x2000 <= n <= 0x200A
    || n == 0x2028 || n == 0x2029 || n == 0x202F || n == 0x205F || n == 0x3000
  }

  /** strings.TrimSpace. */
  function TrimSpace(s: string): string {
    if s == "" then ""
    else if IsSpace(s[0]) then TrimSpace(s[1..])
    else if IsSpace(s[|s| - 1]) then TrimSpace(s[..|s| - 1])
    else s
  }

  /** strings.Index for a single character, from position i on. */
  function IndexFrom(s: string, c: char, i: nat): (k: Option<nat>)
    requires i <= |s|
    ensures k.Some? ==> i <= k.value < |s| && s[k.value] == c && c !in s[i..k.value]
    ensures k.None? ==> c !in s[i..]
    decreases |s| - i
  {
    if i == |s| then None
    else if s[i] == c then Some(i)
    else
      assert s[i..] == [s[i]] + s[i + 1..];
      var k := IndexFrom(s, c, i + 1);
      assert k.Some? ==> s[i..k.value] == [s[i]] + s[i + 1..k.value];
      k
  }

  /** strings.Split at a single character. */
  function SplitAt(s: string, c: char): (parts: seq<string>)
    ensures parts != []
    decreases |s|
  {
    var k := IndexFrom(s, c, 0);
    if k.None? then [s] else [s[..k.value]] + SplitAt(s[k.value + 1..], c)
  }

  predicate IsDigit(c: char) {
    '0' <= c <= '9'
  }

  predicate AllDigits(s: string) {
    forall i :: 0 <= i < |s| ==> IsDigit(s[i])
  }

  function DigitsValue(s: string): nat
    requires AllDigits(s)
  {
    if s == "" then 0 else DigitsValue(s[..|s| - 1]) * 10 + DigitValue(s[|s| - 1])
  }

  function DigitValue(c: char): nat
    requires IsDigit(c)
  {
    c as int - '0' as int
  }

  const MAX_INT := 0x7fff_ffff_ffff_ffff

  predicate IsSign(c: char) {
    c == '+' || c == '-'
  }

  /** strconv.Atoi: an optional sign and decimal digits that fit a 64-bit integer. */
  function Atoi(s: string): Option<int> {
    var digits := if s != "" && IsSign(s[0]) then s[1..] else s;
    if digits == "" || !AllDigits(digits) then None
    else
      var v: int := DigitsValue(digits);
      var n := if s[0] == '-' then -v else v;
      if -MAX_INT - 1 <= n <= MAX_INT then Some(n) else None
  }

  function DigitChar(d: nat): (c: char)
    requires d < 10
    ensures IsDigit(c) && DigitValue(c) == d
  {
    ('0' as int + d) as char
  }

  function Decimal(n: nat): string {
    if n < 10 then [DigitChar(n)] else Decimal(n / 10) + [DigitChar(n % 10)]
  }

  function ZeroPad(width: int, s: string): string
    decreases width - |s|
  {
    if |s| >= width then s else ZeroPad(width, "0" + s)
  }

  /** fmt.Sprintf("%0*d", width, n). */
  function Sprintf(width: int, n: int): string {
    if n >= 0 then ZeroPad(width, Decimal(n)) else "-" + ZeroPad(width - 1, Decimal(-n))
  }

  // ---- splitTopLevelComma

  /** The nesting depth behind character c. An unmatched closing bracket changes nothing. */
  function Deeper(d: nat, c: char): nat {
    if c == '[' then d + 1 else if c == ']' && d > 0 then d - 1 else d
  }

  /** The first comma outside brackets at or behind i, d being the depth there; the length when there is none. */
  function NextComma(s: string, i: nat, d: nat): (k: nat)
    requires i <= |s|
    ensures i <= k <= |s| && (k < |s| ==> s[k] == ',')
    decreases |s| - i
  {
    if i == |s| || (s[i] == ',' && d == 0) then i else NextComma(s, i + 1, Deeper(d, s[i]))
  }

  /** The pieces between the commas outside brackets. A last piece that is empty does not count. */
  function TopLevel(s: string): seq<string>
    decreases |s|
  {
    if s == "" then []
    else
      var k := NextComma(s, 0, 0);
      if k == |s| then [s] else [s[..k]] + TopLevel(s[k + 1..])
  }

  /** Where the splitter stands at i: parts are cut off, the piece under way begins at start. */
  ghost predicate Splitting(s: string, parts: seq<string>, start: nat, i: nat, depth: nat) {
    && start <= i <= |s|
    && parts + TopLevel(s[start..]) == TopLevel(s)
    && (start < |s| ==> NextComma(s[start..], 0, 0) == NextComma(s[start..], i - start, depth))
  }

  lemma {:induction false} Begin(s: string)
    ensures Splitting(s, [], 0, 0, 0)
  {
    assert s[0..] == s;
    assert [] + TopLevel(s) == TopLevel(s);
  }

  lemma {:induction false} GoOn(s: string, parts: seq<string>, start: nat, i: nat, depth: nat)
    requires Splitting(s, parts, start, i, depth) && i < |s| && !(s[i] == ',' && depth == 0)
    ensures Splitting(s, parts, start, i + 1, Deeper(depth, s[i]))
  {
    assert s[start..][i - start] == s[i];
    hide TopLevel;
  }

  lemma {:induction false} CutOff(s: string, parts: seq<string>, start: nat, i: nat)
    requires Splitting(s, parts, start, i, 0) && i < |s| && s[i] == ','
    ensures Splitting(s, parts + [s[start..i]], i + 1, i + 1, 0)
  {
    assert s[start..][i - start] == s[i];
    assert s[start..][..i - start] == s[start..i] && s[start..][i - start + 1..] == s[i + 1..];
    assert TopLevel(s[start..]) == [s[start..i]] + TopLevel(s[i + 1..]);
    hide TopLevel, NextComma;
    assert parts + ([s[start..i]] + TopLevel(s[i + 1..])) == parts + [s[start..i]] + TopLevel(s[i + 1..]);
  }

  lemma {:induction false} Finish(s: string, parts: seq<string>, start: nat, depth: nat)
    requires Splitting(s, parts, start, |s|, depth)
    ensures TopLevel(s) == parts + if start < |s| then [s[start..]] else []
  {
    if start == |s| {
      assert s[start..] == "";
    }
  }

  /** splitTopLevelComma. */
  method SplitTopLevelComma(s: string) returns (parts: seq<string>)
    ensures parts == TopLevel(s)
  {
    hide TopLevel, NextComma, Splitting;
    parts := [];
    var depth, start := 0, 0;
    Begin(s);
    for i := 0 to |s|
      invariant start >= 0 && depth >= 0 && Splitting(s, parts, start, i, depth)
    {
      var c := s[i];
      if c == ',' && depth == 0 {
        CutOff(s, parts, start, i);
      } else {
        GoOn(s, parts, start, i, depth);
      }
      if c == '[' {
        depth := depth + 1;
      } else if c == ']' {
        if depth > 0 {
          depth := depth - 1;
        }
      } else if c == ',' {
        if depth == 0 {
          assert start <= i by { Bounds(s, parts, start, i, depth); }
          parts := parts + [s[start..i]];
          start := i + 1;
        }
      }
    }
    Finish(s, parts, start, depth);
    Bounds(s, parts, start, |s|, depth);
    if start < |s| {
      parts := parts + [s[start..]];
    }
  }

  lemma {:induction false} Bounds(s: string, parts: seq<string>, start: nat, i: nat, depth: nat)
    requires Splitting(s, parts, start, i, depth)
    ensures start <= i <= |s|
  {
  }

  /** Pieces joined by commas. */
  function Join(parts: seq<string>): string {
    if parts == [] then ""
    else if |parts| == 1 then parts[0]
    else parts[0] + "," + Join(parts[1..])
  }

  /** Nothing is lost but a comma at the very end, and that exactly when it is outside brackets. */
  lemma {:induction false} JoinOfSplit(s: string)
    ensures s == Join(TopLevel(s)) + if s != "" && EndsAtTop(s) then "," else ""
    decreases |s|
  {
    if s == "" {
    } else if NextComma(s, 0, 0) == |s| {
      assert TopLevel(s) == [s];
    } else {
      var k := NextComma(s, 0, 0);
      var first, rest := s[..k], s[k + 1..];
      JoinOfSplit(rest);
      Unfolded(s, k);
      hide TopLevel, NextComma, EndsAtTop, Join;
      JoinStep(first, rest, TopLevel(rest), rest != "" && EndsAtTop(rest));
    }
  }

  lemma {:induction false} NoPieces(s: string)
    ensures TopLevel(s) == [] <==> s == ""
  {
    hide NextComma;
  }

  lemma {:induction false} EndsStep(s: string, k: nat)
    requires s != "" && k == NextComma(s, 0, 0) < |s|
    ensures EndsAtTop(s) <==> s[k + 1..] == "" || EndsAtTop(s[k + 1..])
  {
    hide NextComma;
  }

  lemma {:induction false} Unfolded(s: string, k: nat)
    requires s != "" && k == NextComma(s, 0, 0) < |s|
    ensures TopLevel(s) == [s[..k]] + TopLevel(s[k + 1..])
    ensures s == s[..k] + "," + s[k + 1..]
    ensures TopLevel(s[k + 1..]) == [] <==> s[k + 1..] == ""
    ensures EndsAtTop(s) <==> s[k + 1..] == "" || EndsAtTop(s[k + 1..])
  {
    hide NextComma, EndsAtTop;
    NoPieces(s[k + 1..]);
    EndsStep(s, k);
    AroundOne(s, k);
    assert "," == [s[k]];
  }

  lemma {:induction false} JoinStep(first: string, rest: string, parts: seq<string>, trailing: bool)
    requires rest == Join(parts) + if trailing then "," else ""
    requires (parts == [] <==> rest == "")
    ensures first + "," + rest == Join([first] + parts) + if rest == "" || trailing then "," else ""
  {
    if parts == [] {
      assert [first] + [] == [first];
    } else {
      JoinCons(first, parts);
      hide Join;
      assert trailing ==> first + "," + Join(parts) + "," == first + "," + (Join(parts) + ",");
    }
  }

  lemma {:induction false} JoinCons(first: string, rest: seq<string>)
    requires rest != []
    ensures Join([first] + rest) == first + "," + Join(rest)
  {
    assert ([first] + rest)[1..] == rest;
  }

  /** The last character is a comma outside brackets. */
  predicate EndsAtTop(s: string)
    requires s != ""
    decreases |s|
  {
    var k := NextComma(s, 0, 0);
    k < |s| && (k == |s| - 1 || EndsAtTop(s[k + 1..]))
  }

  /** No piece can be split further. */
  lemma {:induction false} PiecesAreWhole(s: string, p: string)
    requires p in TopLevel(s)
    ensures NextComma(p, 0, 0) == |p|
    decreases |s|
  {
    var k := NextComma(s, 0, 0);
    if k < |s| {
      if p == s[..k] {
        Cut(s, k, 0, 0);
      } else {
        PiecesAreWhole(s[k + 1..], p);
      }
    }
  }

  lemma {:induction false} Cut(s: string, k: nat, i: nat, d: nat)
    requires i <= |s| && k == NextComma(s, i, d) < |s|
    ensures NextComma(s[..k], i, d) == k
    decreases k - i
  {
    if i < k {
      assert s[..k][i] == s[i];
      Cut(s, k, i + 1, Deeper(d, s[i]));
    }
  }

  // ---- expandNodeList

  /** The names from lo to hi. */
  function Between(prefix: string, width: int, lo: int, hi: int): seq<string>
    decreases hi - lo + 1
  {
    if hi < lo then [] else Between(prefix, width, lo, hi - 1) + [prefix + Sprintf(width, hi)]
  }

  /** An item between the brackets: a range, in either direction, or anything else taken as it is. */
  function ExpandItem(prefix: string, raw: string): seq<string> {
    var item := TrimSpace(raw);
    if item == "" then []
    else
      var dash := IndexFrom(item, '-', 0);
      if dash.None? then [prefix + item]
      else
        var a, b := item[..dash.value], item[dash.value + 1..];
        if Atoi(a).None? || Atoi(b).None? then [prefix + item]
        else
          var width := if |b| > |a| then |b| else |a|;
          var lo, hi := Atoi(a).value, Atoi(b).value;
          if lo > hi then Between(prefix, width, hi, lo) else Between(prefix, width, lo, hi)
  }

  function ExpandItems(prefix: string, items: seq<string>): seq<string> {
    if items == [] then [] else ExpandItems(prefix, items[..|items| - 1]) + ExpandItem(prefix, items[|items| - 1])
  }

  /** A part of the list: a plain name, or a prefix and a bracketed list. What follows the bracket is dropped. */
  function ExpandPart(raw: string): seq<string> {
    var p := TrimSpace(raw);
    if p == "" then []
    else
      var open := IndexFrom(p, '[', 0);
      if open.None? then [p]
      else
        var close := IndexFrom(p, ']', open.value);
        if close.None? then [p]
        else ExpandItems(p[..open.value], SplitAt(p[open.value + 1..close.value], ','))
  }

  function ExpandParts(parts: seq<string>): seq<string> {
    if parts == [] then [] else ExpandParts(parts[..|parts| - 1]) + ExpandPart(parts[|parts| - 1])
  }

  function Expand(nodeList: string): seq<string> {
    ExpandParts(TopLevel(nodeList))
  }

  /** The body of the loop over bracketed items. */
  method ExpandOne(prefix: string, raw: string) returns (result: seq<string>)
    ensures result == ExpandItem(prefix, raw)
  {
    hide TrimSpace, IndexFrom, Atoi, Sprintf;
    var item := TrimSpace(raw);
    if item == "" {
      return [];
    }
    var dash := IndexFrom(item, '-', 0);
    if dash.None? {
      return [prefix + item];
    }
    var first, second := item[..dash.value], item[dash.value + 1..];
    var start, end := Atoi(first), Atoi(second);
    if start.None? || end.None? {
      return [prefix + item];
    }
    var padLen := |first|;
    if |second| > padLen {
      padLen := |second|;
    }
    var lo, hi := start.value, end.value;
    if lo > hi {
      lo, hi := hi, lo;
    }
    result := NamesBetween(prefix, padLen, lo, hi);
  }

  /** The innermost loop. */
  method NamesBetween(prefix: string, padLen: int, lo: int, hi: int) returns (result: seq<string>)
    requires lo <= hi
    ensures result == Between(prefix, padLen, lo, hi)
  {
    hide Sprintf;
    result := [];
    var i := lo;
    while i <= hi
      invariant lo <= i <= hi + 1 && result == Between(prefix, padLen, lo, i - 1)
    {
      result := result + [prefix + Sprintf(padLen, i)];
      i := i + 1;
    }
  }

  /** expandNodeList. */
  method ExpandNodeList(nodeList: string) returns (result: seq<string>)
    ensures result == Expand(nodeList)
  {
    result := [];
    if nodeList == "" {
      return;
    }
    var parts := SplitTopLevelComma(nodeList);
    for n := 0 to |parts|
      invariant result == ExpandParts(parts[..n])
    {
      hide ExpandPart;
      var more := ExpandOnePart(parts[n]);
      assert parts[..n + 1][..n] == parts[..n];
      result := result + more;
    }
    assert parts[..|parts|] == parts;
  }

  /** The body of the loop over the parts. */
  method ExpandOnePart(raw: string) returns (result: seq<string>)
    ensures result == ExpandPart(raw)
  {
    hide ExpandItem, TrimSpace, SplitAt;
    var p := TrimSpace(raw);
    if p == "" {
      return [];
    }
    var idx := IndexFrom(p, '[', 0);
    if idx.None? {
      return [p];
    }
    var closeIdx := IndexFrom(p, ']', idx.value);
    if closeIdx.None? {
      return [p];
    }
    var prefix, items := p[..idx.value], SplitAt(p[idx.value + 1..closeIdx.value], ',');
    result := [];
    for n := 0 to |items|
      invariant result == ExpandItems(prefix, items[..n])
    {
      var more := ExpandOne(prefix, items[n]);
      assert items[..n + 1][..n] == items[..n];
      result := result + more;
    }
    assert items[..|items|] == items;
  }
}
