/** The progress a report builder records after each data row:
    `((current.to_f / total) * 100).round`, taken as exact rational
    arithmetic rounded half up. */
module Progress {

  /** The percentage of `total` rows done after `current` rows, rounded to
      the nearest integer with halves rounded up: `p` is within one half of
      `100 * current / total`. */
  function Percentage(current: nat, total: nat): (p: int)
    requires total > 0
    ensures 200 * current - total < (2 * total) * p <= 200 * current + total
    ensures p >= 0
  {
    var p := (200 * current + total) / (2 * total);
    DivBounds(200 * current + total, 2 * total);
    p
  }

  lemma DivBounds(x: nat, d: nat)
    requires d > 0
    ensures d * (x / d) <= x < d * (x / d) + d
  {
  }

  lemma MulMono(d: nat, a: int, b: int)
    requires a <= b
    ensures d * a <= d * b
  {
    var k: nat := b - a;
    assert d * b == d * a + d * k;
  }

  lemma MulCancel(d: nat, a: int, b: int)
    requires d > 0 && d * a < d * b
    ensures a < b
  {
    if b <= a {
      MulMono(d, b, a);
    }
  }

  /** Never more than 100 while `current` stays within `total`. */
  lemma PercentageAtMost100(current: nat, total: nat)
    requires 0 < total && current <= total
    ensures Percentage(current, total) <= 100
  {
    var p := Percentage(current, total);
    assert (2 * total) * p < (2 * total) * 101;
    MulCancel(2 * total, p, 101);
  }

  /** After the last row the percentage is exactly 100. */
  lemma PercentageComplete(total: nat)
    requires total > 0
    ensures Percentage(total, total) == 100
  {
    var p := Percentage(total, total);
    PercentageAtMost100(total, total);
    assert (2 * total) * 99 < (2 * total) * p;
    MulCancel(2 * total, 99, p);
  }

  /** More rows done never gives a smaller percentage. */
  lemma PercentageMonotone(a: nat, b: nat, total: nat)
    requires total > 0 && a <= b
    ensures Percentage(a, total) <= Percentage(b, total)
  {
    var pa, pb := Percentage(a, total), Percentage(b, total);
    assert (2 * total) * pa <= 200 * b + total < (2 * total) * (pb + 1);
    MulCancel(2 * total, pa, pb + 1);
  }

  /** The percentages recorded after rows 1..`done` of `total`. */
  function ProgressSeries(done: nat, total: nat): (s: seq<int>)
    requires total > 0
    ensures |s| == done
    ensures forall k :: 0 <= k < done ==> s[k] == Percentage(k + 1, total)
  {
    if done == 0 then [] else ProgressSeries(done - 1, total) + [Percentage(done, total)]
  }

  predicate NonDecreasing(s: seq<int>)
  {
    forall i, j :: 0 <= i < j < |s| ==> s[i] <= s[j]
  }

  /** The values one build records climb from above 0 to exactly 100 and
      never go down. */
  lemma SeriesClimbsTo100(total: nat)
    requires total > 0
    ensures var s := ProgressSeries(total, total);
            NonDecreasing(s) && s[|s| - 1] == 100 &&
            forall k :: 0 <= k < |s| ==> 0 <= s[k] <= 100
  {
    var s := ProgressSeries(total, total);
    forall i, j | 0 <= i < j < |s| ensures s[i] <= s[j] {
      PercentageMonotone(i + 1, j + 1, total);
    }
    forall k | 0 <= k < |s| ensures 0 <= s[k] <= 100 {
      PercentageAtMost100(k + 1, total);
    }
    PercentageComplete(total);
  }

  /** A whole successful run: 0 when processing starts, the series, then 100
      on completion. The recorded progress never goes down. */
  lemma RunNeverGoesBack(total: nat)
    requires total > 0
    ensures NonDecreasing([0] + ProgressSeries(total, total) + [100])
  {
    var s := ProgressSeries(total, total);
    SeriesClimbsTo100(total);
    var run := [0] + s + [100];
    forall i, j | 0 <= i < j < |run| ensures run[i] <= run[j] {
      if 0 < i && j < |run| - 1 {
        assert run[i] == s[i - 1] && run[j] == s[j - 1];
      } else if 0 < i {
        assert run[i] == s[i - 1];
      } else if j < |run| - 1 {
        assert run[j] == s[j - 1];
      }
    }
  }

  /** 1 of 3 rows is 33%, 2 of 3 is 67%, and 1 of 8 (12.5%) rounds up to 13%. */
  lemma PercentageExamples()
    ensures Percentage(1, 3) == 33 && Percentage(2, 3) == 67 && Percentage(1, 8) == 13
  {
    assert 203 / 6 == 33 && 403 / 6 == 67 && 208 / 16 == 13;
  }
}
