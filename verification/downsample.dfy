/**
 History downsampling (internal/storage/storage.go): more than `maximum` points become exactly
 `maximum` weighted means. Bucket bounds are computed with exact arithmetic.
 */
module Downsampling {
  import opened Prelude

  datatype Point = Point(at: Time, cpu: real, memory: real, samples: nat)

  function Weight(p: Point): nat {
    if p.samples < 1 then 1 else p.samples
  }

  function TotalWeight(points: seq<Point>): nat {
    if points == [] then 0 else TotalWeight(Init(points)) + Weight(Last(points))
  }

  datatype Column = Cpu | Memory

  function Value(column: Column, p: Point): real {
    if column == Cpu then p.cpu else p.memory
  }

  /** x, w times. */
  function Times(x: real, w: nat): real {
    if w == 0 then 0.0 else Times(x, w - 1) + x
  }

  lemma {:induction false} TimesIsProduct(x: real, w: nat)
    ensures Times(x, w) == x * w as real
  {
    if w > 0 {
      TimesIsProduct(x, w - 1);
    }
  }

  /** The weighted sum of a column. */
  function Weighted(points: seq<Point>, column: Column): real {
    if points == [] then 0.0
    else Weighted(Init(points), column) + Times(Value(column, Last(points)), Weight(Last(points)))
  }

  lemma {:induction false} WeightIsPositive(points: seq<Point>)
    ensures TotalWeight(points) >= |points|
  {
    if points != [] {
      WeightIsPositive(Init(points));
    }
  }

  /** One bucket: its first timestamp, its weighted means, its total weight. */
  function Merged(bucket: seq<Point>): Point
    requires bucket != []
  {
    WeightIsPositive(bucket);
    var weight := TotalWeight(bucket);
    Point(bucket[0].at, Weighted(bucket, Cpu) / weight as real, Weighted(bucket, Memory) / weight as real, weight)
  }

  /** a / d, by repeated subtraction. */
  function Quotient(a: nat, d: nat): nat
    requires d > 0
  {
    if a < d then 0 else 1 + Quotient(a - d, d)
  }

  lemma {:induction false} QuotientMeans(a: nat, d: nat)
    requires d > 0
    ensures d * Quotient(a, d) <= a < d * Quotient(a, d) + d
  {
    if a >= d {
      var q := Quotient(a - d, d);
      QuotientMeans(a - d, d);
      assert d * (1 + q) == d + d * q;
    }
  }

  lemma {:induction false} QuotientGrows(a: nat, b: nat, d: nat)
    requires 0 < d
    ensures Quotient(a, d) <= Quotient(a + b, d)
    ensures d < b ==> Quotient(a, d) < Quotient(a + b, d)
  {
    if a >= d {
      QuotientGrows(a - d, b, d);
    }
  }

  /** k * n, by repeated addition. */
  function Multiple(k: nat, n: nat): nat {
    if k == 0 then 0 else Multiple(k - 1, n) + n
  }

  lemma {:induction false} MultipleIsProduct(k: nat, n: nat)
    ensures Multiple(k, n) == k * n
  {
    if k > 0 {
      MultipleIsProduct(k - 1, n);
    }
  }

  lemma {:induction false} MultipleAdds(j: nat, k: nat, n: nat)
    ensures Multiple(j + k, n) == Multiple(j, n) + Multiple(k, n)
  {
    if k > 0 {
      MultipleAdds(j, k - 1, n);
    }
  }

  lemma {:induction false} MultipleOneMore(k: nat, n: nat)
    ensures Multiple(k, n + 1) == Multiple(k, n) + k
  {
    if k > 0 {
      MultipleOneMore(k - 1, n);
    }
  }

  lemma {:induction false} QuotientOfMultiple(n: nat, d: nat)
    requires d > 0
    ensures Quotient(Multiple(d, n), d) == n
  {
    if n > 0 {
      QuotientOfMultiple(n - 1, d);
      MultipleOneMore(d, n - 1);
    } else {
      MultipleIsProduct(d, 0);
    }
  }

  /** Where bucket k starts when `count` points go into `maximum` buckets: k * count / maximum. */
  function Bound(k: nat, count: nat, maximum: nat): nat
    requires maximum > 0
  {
    Quotient(Multiple(k, count), maximum)
  }

  lemma RealQuotient(a: nat, d: nat, x: real)
    requires d > 0 && x * d as real == a as real
    ensures x.Floor == Quotient(a, d)
  {
    QuotientMeans(a, d);
    FloorBetween(Quotient(a, d), a, d, x);
  }

  lemma FloorBetween(q: nat, a: nat, d: nat, x: real)
    requires d > 0 && x * d as real == a as real && d * q <= a < d * q + d
    ensures x.Floor == q
  {
    TimesIsProduct(x, d);
    TimesOfWhole(q, d);
    MultipleIsProduct(d, q);
    TimesSign(x, q as real, d);
    TimesSign(x, q as real + 1.0, d);
    TimesOneMore(q as real, d);
  }

  lemma {:induction false} TimesOfWhole(q: nat, n: nat)
    ensures Times(q as real, n) == Multiple(n, q) as real
  {
    if n > 0 {
      TimesOfWhole(q, n - 1);
    }
  }

  lemma {:induction false} TimesOneMore(x: real, n: nat)
    ensures Times(x + 1.0, n) == Times(x, n) + n as real
  {
    if n > 0 {
      TimesOneMore(x, n - 1);
    }
  }

  lemma {:induction false} TimesSign(x: real, y: real, n: nat)
    requires n > 0
    ensures Times(x, n) < Times(y, n) <==> x < y
  {
    if n > 1 {
      TimesSign(x, y, n - 1);
    }
  }

  /** The bound the code computes with a fractional bucket size. */
  lemma BoundIsFloor(k: nat, count: nat, maximum: nat)
    requires maximum > 0
    ensures (k as real * (count as real / maximum as real)).Floor == Bound(k, count, maximum)
  {
    var c, m := count as real, maximum as real;
    assert c / m * m == c;
    assert k as real * (c / m) * m == k as real * c == (k * count) as real;
    MultipleIsProduct(k, count);
    RealQuotient(k * count, maximum, k as real * (c / m));
  }

  /** The buckets are nonempty and adjacent, start at the first point and end at the last. */
  lemma BoundsPartition(k: nat, count: nat, maximum: nat)
    requires 0 < maximum < count
    ensures Bound(0, count, maximum) == 0 && Bound(maximum, count, maximum) == count
    ensures Bound(k, count, maximum) < Bound(k + 1, count, maximum)
    ensures k < maximum ==> Bound(k + 1, count, maximum) <= count
  {
    QuotientGrows(Multiple(k, count), count, maximum);
    QuotientOfMultiple(count, maximum);
    if k < maximum {
      MultipleAdds(k + 1, maximum - k - 1, count);
      QuotientGrows(Multiple(k + 1, count), Multiple(maximum - k - 1, count), maximum);
    }
  }

  function Bucket(points: seq<Point>, k: nat, maximum: nat): seq<Point>
    requires 0 < maximum < |points| && k < maximum
  {
    BoundsPartition(k, |points|, maximum);
    points[Bound(k, |points|, maximum)..Bound(k + 1, |points|, maximum)]
  }

  function Downsampled(points: seq<Point>, maximum: nat): (result: seq<Point>)
    requires maximum > 0
  {
    if |points| <= maximum then points
    else Buckets(points, maximum, maximum)
  }

  /** The first n buckets, merged. */
  function Buckets(points: seq<Point>, maximum: nat, n: nat): (result: seq<Point>)
    requires 0 < maximum < |points| && n <= maximum
    ensures |result| == n
  {
    if n == 0 then []
    else
      BoundsPartition(n - 1, |points|, maximum);
      Buckets(points, maximum, n - 1) + [Merged(Bucket(points, n - 1, maximum))]
  }

  method Downsample(points: seq<Point>, maximum: nat) returns (result: seq<Point>)
    requires maximum > 0
    ensures result == Downsampled(points, maximum)
  {
    if |points| <= maximum {
      return points;
    }
    result := [];
    var bucketSize := |points| as real / maximum as real;
    for bucket := 0 to maximum
      invariant result == Buckets(points, maximum, bucket)
    {
      var start := BoundOf(bucket, bucketSize, |points|, maximum);
      var end := BoundOf(bucket + 1, bucketSize, |points|, maximum);
      BoundsPartition(bucket, |points|, maximum);
      if end <= start {
        end := start + 1;
      }
      if end > |points| {
        end := |points|;
      }
      var merged := MergeBucket(points[start..end]);
      result := result + [merged];
    }
  }

  method BoundOf(bucket: nat, bucketSize: real, ghost count: nat, ghost maximum: nat) returns (bound: nat)
    requires maximum > 0 && bucketSize == count as real / maximum as real
    ensures bound == Bound(bucket, count, maximum)
  {
    BoundIsFloor(bucket, count, maximum);
    bound := (bucket as real * bucketSize).Floor;
  }

  /** The accumulators of one bucket. */
  method MergeBucket(bucket: seq<Point>) returns (merged: Point)
    requires bucket != []
    ensures merged == Merged(bucket)
  {
    var cpu, memory, samples := 0.0, 0.0, 0;
    for i := 0 to |bucket|
      invariant cpu == Weighted(bucket[..i], Cpu) && memory == Weighted(bucket[..i], Memory)
      invariant samples == TotalWeight(bucket[..i])
    {
      assert Init(bucket[..i + 1]) == bucket[..i];
      var weight := bucket[i].samples;
      if weight < 1 {
        weight := 1;
      }
      cpu := cpu + bucket[i].cpu * weight as real;
      memory := memory + bucket[i].memory * weight as real;
      samples := samples + weight;
      TimesIsProduct(bucket[i].cpu, weight);
      TimesIsProduct(bucket[i].memory, weight);
    }
    assert bucket[..|bucket|] == bucket;
    WeightIsPositive(bucket);
    merged := Point(bucket[0].at, cpu / samples as real, memory / samples as real, samples);
  }

  // ----- what downsampling keeps -----

  lemma {:induction false} WeightConcat(a: seq<Point>, b: seq<Point>, column: Column)
    ensures TotalWeight(a + b) == TotalWeight(a) + TotalWeight(b)
    ensures Weighted(a + b, column) == Weighted(a, column) + Weighted(b, column)
  {
    if b == [] {
      assert a + b == a;
    } else {
      assert Init(a + b) == a + Init(b);
      WeightConcat(a, Init(b), column);
    }
  }

  /** A merged point stands for its bucket: same weight, same weighted sums. */
  lemma MergedStandsFor(bucket: seq<Point>, column: Column)
    requires bucket != []
    ensures Weight(Merged(bucket)) == TotalWeight(bucket)
    ensures Times(Value(column, Merged(bucket)), TotalWeight(bucket)) == Weighted(bucket, column)
  {
    WeightIsPositive(bucket);
    TimesIsProduct(Value(column, Merged(bucket)), TotalWeight(bucket));
  }

  lemma PrefixGrows(points: seq<Point>, maximum: nat, k: nat)
    requires 0 < maximum < |points| && k < maximum
    ensures Bound(k, |points|, maximum) <= Bound(k + 1, |points|, maximum) <= |points|
    ensures points[..Bound(k + 1, |points|, maximum)]
            == points[..Bound(k, |points|, maximum)] + Bucket(points, k, maximum)
    ensures Bucket(points, k, maximum) != []
  {
    BoundsPartition(k, |points|, maximum);
  }

  lemma {:induction false} BucketsConserve(points: seq<Point>, maximum: nat, n: nat, column: Column)
    requires 0 < maximum < |points| && n <= maximum
    ensures Bound(n, |points|, maximum) <= |points|
    ensures var prefix := points[..Bound(n, |points|, maximum)];
            && TotalWeight(Buckets(points, maximum, n)) == TotalWeight(prefix)
            && Weighted(Buckets(points, maximum, n), column) == Weighted(prefix, column)
  {
    if n == 0 {
      BoundsPartition(0, |points|, maximum);
    } else {
      BucketsConserve(points, maximum, n - 1, column);
      OneMoreBucket(points, maximum, n - 1, column);
    }
  }

  lemma OneMoreBucket(points: seq<Point>, maximum: nat, k: nat, column: Column)
    requires 0 < maximum < |points| && k < maximum && Bound(k, |points|, maximum) <= |points|
    requires var prefix := points[..Bound(k, |points|, maximum)];
             && TotalWeight(Buckets(points, maximum, k)) == TotalWeight(prefix)
             && Weighted(Buckets(points, maximum, k), column) == Weighted(prefix, column)
    ensures Bound(k + 1, |points|, maximum) <= |points|
    ensures var prefix := points[..Bound(k + 1, |points|, maximum)];
            && TotalWeight(Buckets(points, maximum, k + 1)) == TotalWeight(prefix)
            && Weighted(Buckets(points, maximum, k + 1), column) == Weighted(prefix, column)
  {
    PrefixGrows(points, maximum, k);
    BucketJoins(Buckets(points, maximum, k), points[..Bound(k, |points|, maximum)],
                Bucket(points, k, maximum), column);
  }

  lemma BucketJoins(merged: seq<Point>, prefix: seq<Point>, bucket: seq<Point>, column: Column)
    requires bucket != []
    requires TotalWeight(merged) == TotalWeight(prefix) && Weighted(merged, column) == Weighted(prefix, column)
    ensures TotalWeight(merged + [Merged(bucket)]) == TotalWeight(prefix + bucket)
    ensures Weighted(merged + [Merged(bucket)], column) == Weighted(prefix + bucket, column)
  {
    WeightConcat(prefix, bucket, column);
    MergedStandsFor(bucket, column);
    LastMerged(merged, Merged(bucket), column);
  }

  lemma LastMerged(earlier: seq<Point>, p: Point, column: Column)
    ensures TotalWeight(earlier + [p]) == TotalWeight(earlier) + Weight(p)
    ensures Weighted(earlier + [p], column) == Weighted(earlier, column) + Times(Value(column, p), Weight(p))
  {
    assert Init(earlier + [p]) == earlier;
  }

  /** Total weight and the weighted CPU and memory sums survive downsampling, and the bound is met exactly. */
  lemma DownsamplingConserves(points: seq<Point>, maximum: nat, column: Column)
    requires maximum > 0
    ensures |Downsampled(points, maximum)| == if |points| <= maximum then |points| else maximum
    ensures TotalWeight(Downsampled(points, maximum)) == TotalWeight(points)
    ensures Weighted(Downsampled(points, maximum), column) == Weighted(points, column)
  {
    if |points| > maximum {
      BoundsPartition(maximum, |points|, maximum);
      BucketsConserve(points, maximum, maximum, column);
      assert points[..|points|] == points;
    }
  }

  lemma {:induction false} TimesBetween(low: real, x: real, high: real, w: nat)
    requires low <= x <= high
    ensures Times(low, w) <= Times(x, w) <= Times(high, w)
  {
    if w > 0 {
      TimesBetween(low, x, high, w - 1);
    }
  }

  lemma {:induction false} TimesAdds(x: real, v: nat, w: nat)
    ensures Times(x, v + w) == Times(x, v) + Times(x, w)
  {
    if w > 0 {
      TimesAdds(x, v, w - 1);
    }
  }

  lemma {:induction false} WeightedBetween(points: seq<Point>, column: Column, low: real, high: real)
    requires forall p | p in points :: low <= Value(column, p) <= high
    ensures Times(low, TotalWeight(points)) <= Weighted(points, column) <= Times(high, TotalWeight(points))
  {
    if points != [] {
      var last := Last(points);
      assert last in points;
      WeightedBetween(Init(points), column, low, high);
      TimesBetween(low, Value(column, last), high, Weight(last));
      TimesAdds(low, TotalWeight(Init(points)), Weight(last));
      TimesAdds(high, TotalWeight(Init(points)), Weight(last));
    }
  }

  lemma {:induction false} BucketAt(points: seq<Point>, maximum: nat, n: nat, k: nat)
    requires 0 < maximum < |points| && k < n <= maximum
    ensures Bucket(points, k, maximum) != [] && Bound(k, |points|, maximum) < |points|
    ensures Bucket(points, k, maximum)[0] == points[Bound(k, |points|, maximum)]
    ensures Buckets(points, maximum, n)[k] == Merged(Bucket(points, k, maximum))
  {
    BoundsPartition(k, |points|, maximum);
    if k < n - 1 {
      BucketAt(points, maximum, n - 1, k);
    }
  }

  lemma MergedInRange(bucket: seq<Point>, column: Column, low: real, high: real)
    requires bucket != [] && forall p | p in bucket :: low <= Value(column, p) <= high
    ensures low <= Value(column, Merged(bucket)) <= high
  {
    WeightIsPositive(bucket);
    WeightedBetween(bucket, column, low, high);
    TimesIsProduct(low, TotalWeight(bucket));
    TimesIsProduct(high, TotalWeight(bucket));
    QuotientBetween(Weighted(bucket, column), TotalWeight(bucket) as real, low, high);
  }

  /** Each mean lies within the range of its own bucket. */
  lemma MeansStayInRange(points: seq<Point>, maximum: nat, k: nat, column: Column, low: real, high: real)
    requires 0 < maximum < |points| && k < maximum
    requires forall p | p in Bucket(points, k, maximum) :: low <= Value(column, p) <= high
    ensures |Downsampled(points, maximum)| == maximum
    ensures low <= Value(column, Downsampled(points, maximum)[k]) <= high
  {
    BucketAt(points, maximum, maximum, k);
    MergedInRange(Bucket(points, k, maximum), column, low, high);
  }

  predicate InTimeOrder(points: seq<Point>) {
    forall i, j | 0 <= i < j < |points| :: points[i].at <= points[j].at
  }

  lemma {:induction false} BoundsIncrease(j: nat, k: nat, count: nat, maximum: nat)
    requires 0 < maximum < count && j < k <= maximum
    ensures Bound(j, count, maximum) < Bound(k, count, maximum) <= count
    decreases k - j
  {
    BoundsPartition(j, count, maximum);
    if j + 1 < k {
      BoundsIncrease(j + 1, k, count, maximum);
    }
  }

  /** Time order is kept. */
  lemma DownsamplingKeepsTimeOrder(points: seq<Point>, maximum: nat)
    requires maximum > 0 && InTimeOrder(points)
    ensures InTimeOrder(Downsampled(points, maximum))
  {
    if |points| > maximum {
      var result := Downsampled(points, maximum);
      forall j, k | 0 <= j < k < |result| ensures result[j].at <= result[k].at {
        BucketAt(points, maximum, maximum, j);
        BucketAt(points, maximum, maximum, k);
        BoundsIncrease(j, k, |points|, maximum);
      }
    }
  }

  /** The k-th of the merged points bears the time of the first point of its bucket, the (k * count / maximum)-th. */
  lemma MergedPointsBeginTheirBuckets(points: seq<Point>, maximum: nat, k: nat)
    requires 0 < maximum < |points| && k < maximum
    ensures |Downsampled(points, maximum)| == maximum
    ensures exists i | 0 <= i < |points| ::
              maximum * i <= k * |points| < maximum * i + maximum && Downsampled(points, maximum)[k].at == points[i].at
  {
    var i := Bound(k, |points|, maximum);
    MultipleIsProduct(k, |points|);
    QuotientMeans(Multiple(k, |points|), maximum);
    BucketAt(points, maximum, maximum, k);
    assert Downsampled(points, maximum)[k].at == points[i].at;
  }

  /** A bucket of one point is that point; one without samples counts as one. */
  lemma LonePointStays(p: Point)
    ensures Merged([p]) == p.(samples := if p.samples == 0 then 1 else p.samples)
  {
    assert Init([p]) == [];
    assert Weighted([], Cpu) == 0.0 && Weighted([], Memory) == 0.0 && TotalWeight([]) == 0;
    WeightIsPositive([p]);
    QuotientOfTimes(p.cpu, Weight(p));
    QuotientOfTimes(p.memory, Weight(p));
  }

  lemma QuotientOfTimes(x: real, w: nat)
    requires w > 0
    ensures Times(x, w) / w as real == x
  {
    TimesIsProduct(x, w);
  }
}
