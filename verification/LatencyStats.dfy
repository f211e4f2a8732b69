/** The running latency statistics: minimum, maximum and an integer average
  * updated one sample at a time in fixed-width arithmetic. */
module LatencyStats {

  datatype Stats = Stats(min: nat, max: nat, avg: nat, p99: nat, count: nat)

  const EMPTY: Stats := Stats(0, 0, 0, 0, 0)

  /** `latency_record`, with its 64-bit product and sum and its 32-bit divisor
    * and count; at 2^32 - 1 samples the divisor wraps to zero. */
  function Recorded(s: Stats, x: nat): Stats
    requires (s.count + 1) % 0x1_0000_0000 != 0
  {
    Stats(
      if s.count == 0 || x < s.min then x else s.min,
      if s.count == 0 || x > s.max then x else s.max,
      ((s.avg * s.count) % 0x1_0000_0000_0000_0000 + x) % 0x1_0000_0000_0000_0000 / ((s.count + 1) % 0x1_0000_0000),
      s.p99,
      (s.count + 1) % 0x1_0000_0000)
  }

  // ------------------------------------------------------- exact arithmetic

  function Sum(xs: seq<nat>): nat {
    if xs == [] then 0 else Sum(xs[..|xs| - 1]) + xs[|xs| - 1]
  }

  function Min(xs: seq<nat>): (m: nat)
    requires xs != []
    ensures m in xs && forall i :: 0 <= i < |xs| ==> m <= xs[i]
  {
    var x := xs[|xs| - 1];
    if |xs| == 1 then x else
    var m := Min(xs[..|xs| - 1]);
    assert forall i :: 0 <= i < |xs| - 1 ==> xs[i] == xs[..|xs| - 1][i];
    if x < m then x else m
  }

  function Max(xs: seq<nat>): (m: nat)
    requires xs != []
    ensures m in xs && forall i :: 0 <= i < |xs| ==> xs[i] <= m
  {
    var x := xs[|xs| - 1];
    if |xs| == 1 then x else
    var m := Max(xs[..|xs| - 1]);
    assert forall i :: 0 <= i < |xs| - 1 ==> xs[i] == xs[..|xs| - 1][i];
    if x > m then x else m
  }

  /** The average the update rule computes when nothing overflows. */
  function Mean(xs: seq<nat>): nat {
    if xs == [] then 0
    else
      var n := |xs| - 1;
      (Mean(xs[..n]) * n + xs[n]) / (n + 1)
  }

  /** The statistics after a whole history of samples. */
  function Replay(xs: seq<nat>): (s: Stats)
    requires |xs| < 0x1_0000_0000
    ensures s.count == |xs|
  {
    if xs == [] then EMPTY else Recorded(Replay(xs[..|xs| - 1]), xs[|xs| - 1])
  }

  lemma Scale(a: nat, b: nat, n: nat)
    requires a <= b
    ensures a * n <= b * n
  {
  }

  lemma Unscale(a: nat, b: nat, n: nat)
    requires a * n < b * n
    ensures a < b
  {
    if b <= a { Scale(b, a, n); }
  }

  lemma Quotient(a: nat, d: nat)
    requires d > 0
    ensures (a / d) * d <= a < (a / d + 1) * d
  {
    assert a == d * (a / d) + a % d;
  }

  /** The update keeps the average between any bounds on its two inputs. */
  lemma StepBetween(lo: nat, hi: nat, avg: nat, x: nat, n: nat)
    requires lo <= avg <= hi && lo <= x <= hi
    ensures lo <= (avg * n + x) / (n + 1) <= hi
  {
    var a, d := avg * n + x, n + 1;
    Scale(lo, avg, n);
    Scale(avg, hi, n);
    Quotient(a, d);
    assert lo * d == lo * n + lo && (hi + 1) * d == hi * n + hi + n + 1;
    Unscale(lo, a / d + 1, d);
    Unscale(a / d, hi + 1, d);
  }

  /** Rounding down loses at most n at the step from n to n + 1 samples. */
  lemma RoundingStep(avg: nat, n: nat, x: nat)
    ensures var next := (avg * n + x) / (n + 1);
            0 <= avg * n + x - next * (n + 1) <= n
  {
    var a := avg * n + x;
    assert a == (n + 1) * (a / (n + 1)) + a % (n + 1);
  }

  lemma {:induction false} MeanBetween(xs: seq<nat>)
    requires xs != []
    ensures Min(xs) <= Mean(xs) <= Max(xs)
  {
    var n := |xs| - 1;
    if n > 0 {
      var ys := xs[..n];
      MeanBetween(ys);
      StepBetween(Min(xs), Max(xs), Mean(ys), xs[n], n);
    }
  }

  /** The integer average never exceeds the true mean, and n times it falls
    * short of the sum by at most n(n - 1)/2. */
  lemma {:induction false} MeanError(xs: seq<nat>)
    ensures 0 <= 2 * (Sum(xs) - |xs| * Mean(xs)) <= |xs| * |xs| - |xs|
  {
    if xs != [] {
      var n := |xs| - 1;
      MeanError(xs[..n]);
      RoundingStep(Mean(xs[..n]), n, xs[n]);
      Square(n);
      assert Mean(xs) * (n + 1) == |xs| * Mean(xs);
      assert n * Mean(xs[..n]) == Mean(xs[..n]) * n;
    }
  }

  function Counting(n: nat): (xs: seq<nat>)
    ensures |xs| == n
  {
    if n == 0 then [] else Counting(n - 1) + [n - 1]
  }

  /** The bound is reached: the samples 0, 1, 2, ... keep the average at zero. */
  lemma {:induction false} MeanErrorIsTight(n: nat)
    ensures Mean(Counting(n)) == 0
    ensures 2 * (Sum(Counting(n)) - n * Mean(Counting(n))) == n * n - n
  {
    if n > 0 {
      MeanErrorIsTight(n - 1);
      var xs := Counting(n);
      assert xs[..n - 1] == Counting(n - 1) && xs[n - 1] == n - 1;
      StaysZero(n - 1);
      Square(n - 1);
    }
  }

  lemma StaysZero(m: nat)
    ensures (0 * m + m) / (m + 1) == 0
  {
  }

  lemma Square(m: nat)
    ensures (m + 1) * (m + 1) == m * m + 2 * m + 1
  {
  }

  // -------------------------------------------------------------- no overflow

  ghost predicate Below(xs: seq<nat>, bound: nat) {
    forall i :: 0 <= i < |xs| ==> xs[i] < bound
  }

  lemma ProductFits(avg: nat, n: nat, x: nat)
    requires avg < 0x1_0000_0000 && n < 0x1_0000_0000 - 1 && x < 0x1_0000_0000
    ensures avg * n + x < 0x1_0000_0000_0000_0000
  {
    Scale(avg, 0x1_0000_0000 - 1, n);
    assert (0x1_0000_0000 - 1) * n <= (0x1_0000_0000 - 1) * (0x1_0000_0000 - 2);
  }

  lemma RecordedExactly(s: Stats, x: nat)
    requires s.avg < 0x1_0000_0000 && x < 0x1_0000_0000 && s.count < 0x1_0000_0000 - 1
    ensures Recorded(s, x).avg == (s.avg * s.count + x) / (s.count + 1)
    ensures Recorded(s, x).count == s.count + 1
  {
    ProductFits(s.avg, s.count, x);
  }

  /** With samples below 2^32, and fewer than 2^32 of them, the machine's
    * statistics are the exact ones: nothing overflows and nothing is divided
    * by zero. */
  lemma {:induction false} ReplayIsExact(xs: seq<nat>)
    requires xs != [] && |xs| < 0x1_0000_0000 && Below(xs, 0x1_0000_0000)
    ensures Replay(xs) == Stats(Min(xs), Max(xs), Mean(xs), 0, |xs|)
  {
    var n := |xs| - 1;
    var ys := xs[..n];
    if n > 0 {
      ReplayIsExact(ys);
      MeanBetween(ys);
    }
    RecordedExactly(Replay(ys), xs[n]);
  }

  lemma ReplaySnoc(xs: seq<nat>, x: nat)
    requires |xs| + 1 < 0x1_0000_0000
    ensures Replay(xs + [x]) == Recorded(Replay(xs), x)
  {
    assert (xs + [x])[..|xs|] == xs;
  }

  /** What statistics say about the samples behind them: the extremes exactly,
    * and an average between them, never above the mean and below it by at most
    * (n - 1)/2. */
  ghost predicate Honest(s: Stats, xs: seq<nat>) {
    xs != [] ==>
      && s.min == Min(xs) && s.max == Max(xs) && s.count == |xs|
      && s.min <= s.avg <= s.max
      && 0 <= 2 * (Sum(xs) - |xs| * s.avg) <= |xs| * |xs| - |xs|
  }

  lemma ReplayIsHonest(xs: seq<nat>)
    requires |xs| < 0x1_0000_0000 && Below(xs, 0x1_0000_0000)
    ensures Honest(Replay(xs), xs)
  {
    if xs != [] {
      ReplayIsExact(xs);
      MeanBetween(xs);
      MeanError(xs);
    }
  }

  /** The statistics in place. */
  class Recorder {
    var minUs: nat
    var maxUs: nat
    var avgUs: nat
    var p99Us: nat
    var sampleCount: nat
    ghost var samples: seq<nat>

    ghost function Value(): Stats
      reads this
    {
      Stats(minUs, maxUs, avgUs, p99Us, sampleCount)
    }

    ghost predicate Valid()
      reads this
    {
      |samples| < 0x1_0000_0000 && Value() == Replay(samples)
    }

    constructor ()
      ensures Valid() && samples == []
    {
      minUs, maxUs, avgUs, p99Us, sampleCount := 0, 0, 0, 0, 0;
      samples := [];
    }

    /** `latency_record`: the division is the only thing that can go wrong. */
    method Record(x: nat)
      requires Valid() && (sampleCount + 1) % 0x1_0000_0000 != 0
      modifies this
      ensures Valid() && samples == old(samples) + [x]
      ensures Below(samples, 0x1_0000_0000) ==> Honest(Value(), samples)
    {
      OneMore(samples, x);
      Update(x);
      samples := samples + [x];
      if Below(samples, 0x1_0000_0000) { ReplayIsHonest(samples); }
    }

    method Widen(x: nat)
      modifies this`minUs, this`maxUs
      ensures minUs == if sampleCount == 0 || x < old(minUs) then x else old(minUs)
      ensures maxUs == if sampleCount == 0 || x > old(maxUs) then x else old(maxUs)
    {
      if sampleCount == 0 {
        minUs, maxUs := x, x;
      } else {
        if x < minUs { minUs := x; }
        if x > maxUs { maxUs := x; }
      }
    }

    method Update(x: nat)
      requires (sampleCount + 1) % 0x1_0000_0000 != 0
      modifies this`minUs, this`maxUs, this`avgUs, this`sampleCount
      ensures Value() == Recorded(old(Value()), x)
    {
      Widen(x);
      avgUs := ((avgUs * sampleCount) % 0x1_0000_0000_0000_0000 + x) % 0x1_0000_0000_0000_0000
               / ((sampleCount + 1) % 0x1_0000_0000);
      sampleCount := (sampleCount + 1) % 0x1_0000_0000;
    }
  }

  lemma Below32(n: nat)
    requires n < 0x1_0000_0000 && (n + 1) % 0x1_0000_0000 != 0
    ensures n + 1 < 0x1_0000_0000
  {
  }

  lemma OneMore(xs: seq<nat>, x: nat)
    requires |xs| < 0x1_0000_0000 && (|xs| + 1) % 0x1_0000_0000 != 0
    ensures |xs| + 1 < 0x1_0000_0000 && Recorded(Replay(xs), x) == Replay(xs + [x])
  {
    Below32(|xs|);
    ReplaySnoc(xs, x);
  }
}
