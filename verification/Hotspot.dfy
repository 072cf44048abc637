/** The time-to-hotspot estimate (internal/scoring/hotspot.go) over the circular buffer it reads
    (internal/scoring/buffer.go). */
module Hotspot {
  import opened Seqs
  import R = Ring

  /** A circular buffer that overwrites its oldest value when full. */
  class RingBuffer {
    const data: array<real>
    const capacity: nat
    var head: nat
    var count: nat
    /** Everything added so far. */
    ghost var history: seq<real>

    ghost predicate Valid()
      reads this, data
    {
      && 0 < capacity == data.Length
      && head < capacity && count <= capacity && (count < capacity ==> head == 0)
      && |Contents()| == count
      && (forall i :: 0 <= i < count ==> data[R.At(capacity, head, i)] == Contents()[i])
    }

    /** What the buffer holds, oldest first: the newest values added. */
    ghost function Contents(): seq<real>
      reads this
    {
      LastN(capacity, history)
    }

    constructor (capacity: int)
      ensures Valid() && fresh(data) && history == []
      ensures this.capacity == if capacity <= 0 then 1 else capacity
    {
      var c := if capacity <= 0 then 1 else capacity;
      this.capacity := c;
      data := new real[c](_ => 0.0);
      head, count, history := 0, 0, [];
    }

    method Add(value: real)
      requires Valid()
      modifies this, data
      ensures Valid() && history == old(history) + [value]
    {
      hide LastN, R.At;
      OneMore(capacity, history, value);
      if count < capacity {
        StraightSlots(capacity);
        data[count] := value;
        count := count + 1;
      } else {
        data[head] := value;
        ghost var next := NextHead(capacity, head);
        head := (head + 1) % capacity;
      }
      history := history + [value];
    }

    method Values() returns (out: seq<real>)
      requires Valid()
      ensures out == Contents()
    {
      out := [];
      for i := 0 to count
        invariant out == Contents()[..i]
      {
        SlotMod(capacity, head, i);
        var idx := (head + i) % capacity;
        out := out + [data[idx]];
      }
    }

    method Len() returns (n: nat)
      requires Valid()
      ensures n == |Contents()|
    {
      n := count;
    }

    method Oldest() returns (v: real, ok: bool)
      requires Valid()
      ensures ok <==> Contents() != []
      ensures v == if ok then Contents()[0] else 0.0
    {
      if count == 0 {
        return 0.0, false;
      }
      assert R.At(capacity, head, 0) == head;
      return data[head], true;
    }

    method Newest() returns (v: real, ok: bool)
      requires Valid()
      ensures ok <==> history != []
      ensures v == if ok then history[|history| - 1] else 0.0
    {
      if count == 0 {
        return 0.0, false;
      }
      SlotMod(capacity, head, count - 1);
      var lastIdx := (head + count - 1) % capacity;
      return data[lastIdx], true;
    }
  }

  lemma OneMore(c: nat, history: seq<real>, value: real)
    requires c > 0
    ensures LastN(c, history + [value]) ==
            (if |LastN(c, history)| < c then LastN(c, history) else LastN(c, history)[1..]) + [value]
  {
  }

  lemma StraightSlots(c: nat)
    ensures forall i :: 0 <= i < c ==> R.At(c, 0, i) == i
  {
  }

  /** The slot a full buffer overwrites becomes the last one. */
  lemma NextHead(c: nat, h: nat) returns (next: nat)
    requires h < c
    ensures next == (h + 1) % c < c && R.At(c, next, c - 1) == h
    ensures forall i :: 0 <= i < c - 1 ==> R.At(c, next, i) == R.At(c, h, i + 1)
    ensures forall i :: 0 <= i < c - 1 ==> R.At(c, next, i) != h
  {
    R.NextSlot(c, h);
    next := if h + 1 < c then h + 1 else 0;
  }

  lemma SlotMod(c: nat, h: nat, i: nat)
    requires h < c && i < c
    ensures (h + i) % c == R.At(c, h, i)
  {
    if h + i >= c {
      OnceAround(c, h + i - c);
    }
  }

  lemma OnceAround(c: nat, y: nat)
    requires y < c
    ensures (c + y) % c == y
  {
    assert (c + y) / c == 1;
  }

  // ---- Least squares over x = 0, 1, 2, ...

  /** A product, as a function so that proofs about sums can leave it alone. */
  function Times(a: real, b: real): real {
    a * b
  }

  function SumX(n: nat): real {
    if n == 0 then 0.0 else SumX(n - 1) + (n - 1) as real
  }

  function SumX2(n: nat): real {
    if n == 0 then 0.0 else SumX2(n - 1) + Times((n - 1) as real, (n - 1) as real)
  }

  function SumY(ys: seq<real>): real {
    if ys == [] then 0.0 else SumY(ys[..|ys| - 1]) + ys[|ys| - 1]
  }

  function SumXY(ys: seq<real>): real {
    if ys == [] then 0.0 else SumXY(ys[..|ys| - 1]) + Times((|ys| - 1) as real, ys[|ys| - 1])
  }

  function Denominator(n: nat): real {
    Times(n as real, SumX2(n)) - Times(SumX(n), SumX(n))
  }

  function Numerator(ys: seq<real>): real {
    Times(|ys| as real, SumXY(ys)) - Times(SumX(|ys|), SumY(ys))
  }

  /** y against every value of ys, weighted by the distance: the sum of (n - i)(y - ys[i]). */
  function Against(ys: seq<real>, n: nat, y: real): real {
    if ys == [] then 0.0
    else Against(ys[..|ys| - 1], n, y) + Times((n - |ys| + 1) as real, y - ys[|ys| - 1])
  }

  /** The sum of (j - i)(ys[j] - ys[i]) over all i < j. */
  function PairSum(ys: seq<real>): real {
    if ys == [] then 0.0
    else PairSum(ys[..|ys| - 1]) + Against(ys[..|ys| - 1], |ys| - 1, ys[|ys| - 1])
  }

  /** What Against comes to, in terms of the sums over k values. */
  function FromSums(k: real, n: real, y: real, sx: real, sy: real, sxy: real): real {
    k * (n * y) - n * sy - y * sx + sxy
  }

  lemma FromSumsStep(k: real, n: real, y: real, z: real, sx: real, sy: real, sxy: real)
    ensures FromSums(k, n, y, sx, sy, sxy) + Times(n - k, y - z)
            == FromSums(k + 1.0, n, y, sx + k, sy + z, sxy + Times(k, z))
  {
    assert (n - k) * (y - z) == n * y - n * z - k * y + k * z;
  }

  lemma {:induction false} AgainstSums(ys: seq<real>, n: nat, y: real)
    ensures Against(ys, n, y) == FromSums(|ys| as real, n as real, y, SumX(|ys|), SumY(ys), SumXY(ys))
  {
    if ys == [] {
    } else {
      hide FromSums, Times;
      var k := |ys| - 1;
      AgainstSums(ys[..k], n, y);
      FromSumsStep(k as real, n as real, y, ys[k], SumX(k), SumY(ys[..k]), SumXY(ys[..k]));
      assert |ys| as real == k as real + 1.0 && (n - k) as real == n as real - k as real;
    }
  }

  lemma NumeratorStep(n: real, y: real, sx: real, sy: real, sxy: real)
    ensures Times(n + 1.0, sxy + Times(n, y)) - Times(sx + n, sy + y)
            == Times(n, sxy) - Times(sx, sy) + FromSums(n, n, y, sx, sy, sxy)
  {
    assert (n + 1.0) * (sxy + n * y) == n * sxy + sxy + n * (n * y) + n * y;
    assert (sx + n) * (sy + y) == sx * sy + sx * y + n * sy + n * y;
  }

  /** The slope's numerator compares all pairs of values: for any number of them,
      n * sum(xy) - sum(x) * sum(y) is the sum of (j - i)(y_j - y_i) over all i < j. */
  lemma {:induction false} SlopeIdentity(ys: seq<real>)
    ensures Numerator(ys) == PairSum(ys)
  {
    if ys == [] {
    } else {
      hide FromSums, Times;
      var k := |ys| - 1;
      SlopeIdentity(ys[..k]);
      AgainstSums(ys[..k], k, ys[k]);
      NumeratorStep(k as real, ys[k], SumX(k), SumY(ys[..k]), SumXY(ys[..k]));
      assert |ys| as real == k as real + 1.0;
    }
  }

  // ---- The estimate

  /** Degrees per minute: the slope is per 30-second sample. */
  function SlopePerMin(ys: seq<real>): real
    requires |ys| == 10
  {
    Numerator(ys) / 825.0 * 2.0
  }

  /** The window of ten samples never trips the guard against a vanishing denominator. */
  lemma {:induction false} DenominatorOfTen()
    ensures SumX(10) == 45.0 && SumX2(10) == 285.0 && Denominator(10) == 825.0
  {
    assert SumX(3) == 3.0 && SumX2(3) == 5.0;
    assert SumX(6) == 15.0 && SumX2(6) == 55.0;
    assert SumX(8) == 28.0 && SumX2(8) == 140.0;
  }

  function Estimate(ys: seq<real>, tCurrent: real, limit: real): Option<real>
    requires |ys| == 10
  {
    Verdict(SlopePerMin(ys), tCurrent, limit)
  }

  function Verdict(slope: real, tCurrent: real, limit: real): Option<real> {
    if slope <= 0.1 then None else Some(if limit <= tCurrent then 0.0 else (limit - tCurrent) / slope)
  }

  /** ComputeTimeToHotspot. The newest ten values decide; with fewer there is no estimate. */
  method ComputeTimeToHotspot(buffer: RingBuffer, tCurrent: real, limit: real) returns (r: Option<real>)
    requires buffer.Valid()
    ensures r == if |buffer.Contents()| < 10 then None else Estimate(LastN(10, buffer.Contents()), tCurrent, limit)
    ensures |buffer.Contents()| >= 10 ==>
              var pairs := PairSum(buffer.Contents()[|buffer.Contents()| - 10..]);
              (r.Some? <==> pairs > 41.25) && (r.Some? ==> r.value == Minutes(pairs, tCurrent, limit))
  {
    ghost var contents := buffer.Contents();
    var len := buffer.Len();
    if len < 10 {
      return None;
    }
    ghost var newest := contents[|contents| - 10..];
    EstimateByPairs(newest, tCurrent, limit);
    hide PairSum, Estimate, Minutes, RingBuffer.Contents, RingBuffer.Valid;
    var values := buffer.Values();
    if |values| > 10 {
      values := values[|values| - 10..];
    }
    assert values == newest;
    r := Regress(values, tCurrent, limit);
  }

  /** The regression over the newest ten values, and the estimate it gives. */
  method Regress(values: seq<real>, tCurrent: real, limit: real) returns (r: Option<real>)
    requires |values| == 10
    ensures r == Estimate(values, tCurrent, limit)
  {
    hide SumX, SumX2, SumY, SumXY, Estimate, Verdict;
    var sumX, sumX2, sumY, sumXY := Sums(values);
    DenominatorOfTen();
    var n := |values|;
    assert n as real == 10.0;
    var denom, numer := n as real * sumX2 - sumX * sumX, n as real * sumXY - sumX * sumY;
    DecidedByEstimate(values, sumXY, sumX, sumY, numer, tCurrent, limit);
    r := Decide(denom, numer, tCurrent, limit);
  }

  lemma DecidedByEstimate(ys: seq<real>, sxy: real, sx: real, sy: real, numer: real, tCurrent: real, limit: real)
    requires |ys| == 10 && sxy == SumXY(ys) && sx == SumX(10) && sy == SumY(ys)
    requires numer == 10.0 * sxy - sx * sy
    ensures Verdict(numer / 825.0 * 2.0, tCurrent, limit) == Estimate(ys, tCurrent, limit)
  {
    hide SumX, SumY, SumXY;
    assert Numerator(ys) == numer;
    hide Numerator;
  }

  /** The loop of ComputeTimeToHotspot. */
  method Sums(values: seq<real>) returns (sumX: real, sumX2: real, sumY: real, sumXY: real)
    ensures sumX == SumX(|values|) && sumX2 == SumX2(|values|)
    ensures sumY == SumY(values) && sumXY == SumXY(values)
  {
    sumX, sumY, sumXY, sumX2 := 0.0, 0.0, 0.0, 0.0;
    for i := 0 to |values|
      invariant sumX == SumX(i) && sumX2 == SumX2(i)
      invariant sumY == SumY(values[..i]) && sumXY == SumXY(values[..i])
    {
      hide Times;
      assert values[..i + 1][..i] == values[..i];
      var x, y := i as real, values[i];
      sumX := sumX + x;
      sumY := sumY + y;
      sumXY := sumXY + Times(x, y);
      sumX2 := sumX2 + Times(x, x);
    }
    assert values[..|values|] == values;
  }

  /** The end of ComputeTimeToHotspot, once the sums are known. */
  method Decide(denom: real, numer: real, tCurrent: real, limit: real) returns (r: Option<real>)
    requires denom == 825.0
    ensures r == Verdict(numer / 825.0 * 2.0, tCurrent, limit)
  {
    if -0.0000000001 < denom < 0.0000000001 {
      return None;
    }
    var slope := numer / denom;
    var slopePerMin := slope * 2.0;
    if slopePerMin <= 0.1 {
      return None;
    }
    var minutesToHotspot := (limit - tCurrent) / slopePerMin;
    DividedSign(limit - tCurrent, slopePerMin);
    if minutesToHotspot <= 0.0 {
      return Some(0.0);
    }
    return Some(minutesToHotspot);
  }

  /** The time to the limit, from the sum over all pairs. */
  function Minutes(pairs: real, tCurrent: real, limit: real): real
    requires pairs > 0.0
  {
    if limit <= tCurrent then 0.0 else (limit - tCurrent) * 825.0 / (2.0 * pairs)
  }

  /** The estimate, by the pairs of values: there is one exactly when the sum of (j - i)(y_j - y_i) over all pairs
      exceeds 41.25, and it is the time a rise at twice that sum over 825 takes to the limit. */
  lemma EstimateByPairs(ys: seq<real>, tCurrent: real, limit: real)
    requires |ys| == 10
    ensures Estimate(ys, tCurrent, limit).Some? <==> PairSum(ys) > 41.25
    ensures Estimate(ys, tCurrent, limit).Some? ==>
              && Estimate(ys, tCurrent, limit).value == Minutes(PairSum(ys), tCurrent, limit)
              && Estimate(ys, tCurrent, limit).value
                 == if limit <= tCurrent then 0.0 else (limit - tCurrent) * 825.0 / (2.0 * PairSum(ys))
  {
    SlopeIdentity(ys);
    hide Numerator, PairSum;
    var p := PairSum(ys);
    assert SlopePerMin(ys) == p / 825.0 * 2.0 == 2.0 * p / 825.0;
    if p > 41.25 && limit > tCurrent {
      QuotientOfQuotient(limit - tCurrent, 2.0 * p, 825.0);
    }
  }

  lemma QuotientOfQuotient(a: real, b: real, c: real)
    requires b > 0.0 && c > 0.0
    ensures b / c > 0.0 && a / (b / c) == a * c / b
  {
    assert (b / c) * c == b;
    assert (a * c / b) * b == a * c;
    assert (a * c / b) * (b / c) * c == a * c;
  }

  lemma DividedSign(a: real, b: real)
    requires b > 0.0
    ensures a / b <= 0.0 <==> a <= 0.0
  {
    assert (a / b) * b == a;
    if a / b > 0.0 {
      assert (a / b) * b > 0.0;
    } else {
      assert (-(a / b)) * b >= 0.0;
    }
  }

  /** No estimate is negative. */
  lemma EstimateNotNegative(ys: seq<real>, tCurrent: real, limit: real)
    requires |ys| == 10
    ensures Estimate(ys, tCurrent, limit).Some? ==> Estimate(ys, tCurrent, limit).value >= 0.0
  {
    hide Numerator;
    if SlopePerMin(ys) > 0.1 {
      DividedSign(limit - tCurrent, SlopePerMin(ys));
    }
  }

  lemma Product(a: real, b: real)
    requires a >= 0.0 && b <= 0.0
    ensures Times(a, b) <= 0.0
  {
    assert a * (-b) >= 0.0;
  }

  lemma {:induction false} AgainstHigher(ys: seq<real>, n: nat, y: real)
    requires |ys| <= n && forall i :: 0 <= i < |ys| ==> y <= ys[i]
    ensures Against(ys, n, y) <= 0.0
  {
    if ys != [] {
      AgainstHigher(ys[..|ys| - 1], n, y);
      Product((n - |ys| + 1) as real, y - ys[|ys| - 1]);
    }
  }

  lemma {:induction false} PairSumNonIncreasing(ys: seq<real>)
    requires forall i, j :: 0 <= i < j < |ys| ==> ys[j] <= ys[i]
    ensures PairSum(ys) <= 0.0
  {
    if ys != [] {
      PairSumNonIncreasing(ys[..|ys| - 1]);
      AgainstHigher(ys[..|ys| - 1], |ys| - 1, ys[|ys| - 1]);
    }
  }

  /** A window that never rises gives no estimate. */
  lemma NoEstimateWithoutRise(ys: seq<real>, tCurrent: real, limit: real)
    requires |ys| == 10 && forall i, j :: 0 <= i < j < |ys| ==> ys[j] <= ys[i]
    ensures Estimate(ys, tCurrent, limit) == None
  {
    SlopeIdentity(ys);
    PairSumNonIncreasing(ys);
  }

  /** The value at x on a line, and the sums of such values and of their products with x. */
  function Line(a: real, b: real, x: real): real {
    a + b * x
  }

  function LineSum(n: real, a: real, b: real, sx: real): real {
    n * a + b * sx
  }

  function LineMoment(a: real, b: real, sx: real, sx2: real): real {
    a * sx + b * sx2
  }

  lemma LineStep(k: real, a: real, b: real, sx: real, sx2: real)
    ensures LineSum(k, a, b, sx) + Line(a, b, k) == LineSum(k + 1.0, a, b, sx + k)
    ensures LineMoment(a, b, sx, sx2) + Times(k, Line(a, b, k)) == LineMoment(a, b, sx + k, sx2 + Times(k, k))
  {
    Distribute(b, sx, k);
    Distribute(a, sx, k);
    Distribute(b, sx2, k * k);
    Distribute(k, a, b * k);
  }

  lemma Distribute(x: real, y: real, z: real)
    ensures x * (y + z) == x * y + x * z
  {
  }

  lemma {:induction false} LinearSums(ys: seq<real>, a: real, b: real)
    requires forall i :: 0 <= i < |ys| ==> ys[i] == Line(a, b, i as real)
    ensures SumY(ys) == LineSum(|ys| as real, a, b, SumX(|ys|))
    ensures SumXY(ys) == LineMoment(a, b, SumX(|ys|), SumX2(|ys|))
  {
    if ys == [] {
    } else {
      hide Line, LineSum, LineMoment, Times;
      var k := |ys| - 1;
      LinearSums(ys[..k], a, b);
      LineStep(k as real, a, b, SumX(k), SumX2(k));
      assert |ys| as real == k as real + 1.0;
    }
  }

  /** For values on a line the regression returns its slope, whatever the number of values. */
  lemma LinearSlope(ys: seq<real>, a: real, b: real)
    requires forall i :: 0 <= i < |ys| ==> ys[i] == Line(a, b, i as real)
    ensures Numerator(ys) == Times(b, Denominator(|ys|))
  {
    hide Line, LineSum, LineMoment, Times, SumX, SumX2, SumY, SumXY;
    LinearSums(ys, a, b);
    LinearNumerator(|ys| as real, a, b, SumX(|ys|), SumX2(|ys|));
  }

  lemma LinearNumerator(n: real, a: real, b: real, sx: real, sx2: real)
    ensures Times(n, LineMoment(a, b, sx, sx2)) - Times(sx, LineSum(n, a, b, sx))
            == Times(b, Times(n, sx2) - Times(sx, sx))
  {
    assert n * (a * sx + b * sx2) == a * (n * sx) + b * (n * sx2);
    assert sx * (n * a + b * sx) == a * (n * sx) + b * (sx * sx);
  }

  /** A window that rises by b degrees per sample gives an estimate exactly when 2b > 0.1, and it is the time a
      further rise at that rate takes. */
  lemma LinearEstimate(ys: seq<real>, a: real, b: real, tCurrent: real, limit: real)
    requires |ys| == 10 && forall i :: 0 <= i < |ys| ==> ys[i] == Line(a, b, i as real)
    ensures Estimate(ys, tCurrent, limit) ==
            if 2.0 * b > 0.1 then Some(if limit <= tCurrent then 0.0 else (limit - tCurrent) / (2.0 * b)) else None
  {
    LinearSlope(ys, a, b);
    DenominatorOfTen();
    hide Numerator, Denominator, Line;
    assert SlopePerMin(ys) == 2.0 * b;
  }

  // ---- Why this slope: no line fits better

  function Square(x: real): real {
    Times(x, x)
  }

  /** The sum of squared residuals of the line a + b * x. */
  function Residuals(ys: seq<real>, a: real, b: real): real {
    if ys == [] then 0.0
    else
      var k := |ys| - 1;
      Residuals(ys[..k], a, b) + Square(ys[k] - Line(a, b, k as real))
  }

  /** The sum of (a + b * x) squared over the first n values of x. */
  function Spread(n: nat, a: real, b: real): (r: real)
    ensures r >= 0.0
  {
    if n == 0 then 0.0
    else
      SquareSign(Line(a, b, (n - 1) as real));
      Spread(n - 1, a, b) + Square(Line(a, b, (n - 1) as real))
  }

  lemma SquareSign(x: real)
    ensures Square(x) >= 0.0 && (Square(x) == 0.0 <==> x == 0.0)
  {
    if x < 0.0 {
      PositiveProduct(-x, -x);
    } else if x > 0.0 {
      PositiveProduct(x, x);
    }
  }

  lemma PositiveProduct(a: real, b: real)
    requires a > 0.0 && b > 0.0
    ensures Times(a, b) > 0.0
  {
  }

  /** What a line that differs by da and db costs, in terms of the sums of residuals and of residuals times x. */
  function Costs(spread: real, da: real, db: real, sum: real, moment: real): real {
    spread - 2.0 * Times(da, sum) - 2.0 * Times(db, moment)
  }

  lemma CostsStep(spread: real, k: real, e: real, da: real, db: real, sum: real, moment: real)
    ensures Costs(spread, da, db, sum, moment) + Square(e - Line(da, db, k))
            == Square(e) + Costs(spread + Square(Line(da, db, k)), da, db, sum + e, moment + Times(k, e))
  {
    SquareMinus(e, Line(da, db, k));
    LineTimes(da, db, k, e);
    TimesPlus(da, sum, e);
    TimesPlus(db, moment, Times(k, e));
    hide Square, Line, Times;
  }

  lemma SquareMinus(e: real, d: real)
    ensures Square(e - d) == Square(e) - 2.0 * Times(d, e) + Square(d)
  {
  }

  lemma LineTimes(a: real, b: real, x: real, e: real)
    ensures Times(Line(a, b, x), e) == Times(a, e) + Times(b, Times(x, e))
  {
  }

  lemma TimesPlus(x: real, y: real, z: real)
    ensures Times(x, y + z) == Times(x, y) + Times(x, z)
  {
  }

  lemma LineShifted(a: real, b: real, da: real, db: real, x: real)
    ensures Line(a + da, b + db, x) == Line(a, b, x) + Line(da, db, x)
  {
  }

  lemma TimesMinus(x: real, y: real, z: real)
    ensures Times(x, y - z) == Times(x, y) - Times(x, z)
  {
  }

  /** The sum of the residuals of a line, and of their products with x. */
  function Excess(ys: seq<real>, a: real, b: real): real {
    SumY(ys) - LineSum(|ys| as real, a, b, SumX(|ys|))
  }

  function ExcessMoment(ys: seq<real>, a: real, b: real): real {
    SumXY(ys) - LineMoment(a, b, SumX(|ys|), SumX2(|ys|))
  }

  lemma ExcessStep(ys: seq<real>, a: real, b: real)
    requires ys != []
    ensures var k := |ys| - 1; var e := ys[k] - Line(a, b, k as real);
            && Excess(ys, a, b) == Excess(ys[..k], a, b) + e
            && ExcessMoment(ys, a, b) == ExcessMoment(ys[..k], a, b) + Times(k as real, e)
  {
    hide Line, LineSum, LineMoment, Times;
    var k := |ys| - 1;
    LineStep(k as real, a, b, SumX(k), SumX2(k));
    TimesMinus(k as real, ys[k], Line(a, b, k as real));
    assert |ys| as real == k as real + 1.0;
  }

  lemma NoExcess(a: real, b: real)
    ensures Excess([], a, b) == 0.0 && ExcessMoment([], a, b) == 0.0
  {
  }

  lemma {:induction false} ResidualsOfAnother(ys: seq<real>, a: real, b: real, da: real, db: real)
    ensures Residuals(ys, a + da, b + db)
            == Residuals(ys, a, b) + Costs(Spread(|ys|, da, db), da, db, Excess(ys, a, b), ExcessMoment(ys, a, b))
  {
    if ys == [] {
      NoExcess(a, b);
      CostsAtZero(0.0, da, db);
    } else {
      hide Line, LineSum, LineMoment, Times, Square, Costs, Excess, ExcessMoment;
      var k := |ys| - 1;
      var e := ys[k] - Line(a, b, k as real);
      ResidualsOfAnother(ys[..k], a, b, da, db);
      LineShifted(a, b, da, db, k as real);
      CostsStep(Spread(k, da, db), k as real, e, da, db, Excess(ys[..k], a, b), ExcessMoment(ys[..k], a, b));
      ExcessStep(ys, a, b);
    }
  }

  lemma CostsAtZero(spread: real, da: real, db: real)
    ensures Costs(spread, da, db, 0.0, 0.0) == spread
  {
  }

  lemma {:induction false} SpreadAtLeast(n: nat, da: real, db: real)
    requires n >= 2
    ensures Spread(n, da, db) >= Square(da) + Square(da + db)
  {
    if n == 2 {
      assert Spread(1, da, db) == Square(Line(da, db, 0.0));
      assert Line(da, db, 0.0) == da && Line(da, db, 1.0) == da + db;
    } else {
      SpreadAtLeast(n - 1, da, db);
      SquareSign(Line(da, db, (n - 1) as real));
    }
  }

  /** Of all lines, the one with this slope through the mean has the least sum of squared residuals, and is the only
      one that has. For the window of ten values its slope per sample is their pair sum over 825. */
  lemma BestLine(ys: seq<real>)
    requires |ys| == 10
    ensures var b := PairSum(ys) / 825.0;
            var a := (SumY(ys) - b * 45.0) / 10.0;
            forall a', b' ::
              && Residuals(ys, a, b) <= Residuals(ys, a', b')
              && (Residuals(ys, a', b') == Residuals(ys, a, b) ==> a' == a && b' == b)
  {
    var b := PairSum(ys) / 825.0;
    var a := (SumY(ys) - b * 45.0) / 10.0;
    SlopeIdentity(ys);
    DenominatorOfTen();
    NormalEquations(ys, a, b);
    hide PairSum, SumY, Residuals, Spread, Square, Excess, ExcessMoment, Costs, Numerator, Denominator;
    forall a', b'
      ensures Residuals(ys, a, b) <= Residuals(ys, a', b')
      ensures Residuals(ys, a', b') == Residuals(ys, a, b) ==> a' == a && b' == b
    {
      CompareLines(ys, a, b, a' - a, b' - b);
      assert a + (a' - a) == a' && b + (b' - b) == b';
    }
  }

  lemma CompareLines(ys: seq<real>, a: real, b: real, da: real, db: real)
    requires |ys| >= 2 && Excess(ys, a, b) == 0.0 && ExcessMoment(ys, a, b) == 0.0
    ensures Residuals(ys, a, b) <= Residuals(ys, a + da, b + db)
    ensures Residuals(ys, a + da, b + db) == Residuals(ys, a, b) ==> da == 0.0 && db == 0.0
  {
    ResidualsOfAnother(ys, a, b, da, db);
    CostsAtZero(Spread(|ys|, da, db), da, db);
    SpreadAtLeast(|ys|, da, db);
    SquareSign(da);
    SquareSign(da + db);
    hide Residuals, Spread, Square, Excess, ExcessMoment, Costs;
  }

  lemma NormalEquations(ys: seq<real>, a: real, b: real)
    requires |ys| == 10 && SumX(10) == 45.0 && SumX2(10) == 285.0
    requires b * 825.0 == Numerator(ys) && a * 10.0 == SumY(ys) - b * 45.0
    ensures Excess(ys, a, b) == 0.0 && ExcessMoment(ys, a, b) == 0.0
  {
    hide SumX, SumX2, SumY, SumXY;
  }
}
