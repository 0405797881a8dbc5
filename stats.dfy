/**
 * The daily statistics of the lowest cloud layer (`cloud_height.stats`):
 * which samples count as cloudy, the cloud fraction, and the minimum,
 * maximum and mean of the cloudy samples.  Heights are `real`.
 */
module DailyStats {
  import opened Optional

  /**
   * The cloudy samples `h1[np.where(h1 > 0)]`: the positive heights, each as
   * often as it occurs in `h` (`PositivesCount`), in their original order
   * (`PositivesConcat`).
   */
  function Positives(h: seq<real>): (p: seq<real>)
    ensures |p| <= |h|
    ensures forall i :: 0 <= i < |p| ==> p[i] > 0.0 && p[i] in h
    decreases |h|
  {
    if |h| == 0 then []
    else if h[|h| - 1] > 0.0 then Positives(h[..|h| - 1]) + [h[|h| - 1]]
    else Positives(h[..|h| - 1])
  }

  /** Every positive value is kept exactly as often as it occurs; nothing else is kept. */
  lemma {:induction false} PositivesCount(h: seq<real>)
    ensures forall x :: multiset(Positives(h))[x] == if x > 0.0 then multiset(h)[x] else 0
    decreases |h|
  {
    if |h| > 0 {
      PositivesCount(h[..|h| - 1]);
      assert h == h[..|h| - 1] + [h[|h| - 1]];
    }
  }

  /** Filtering works piece by piece, so the cloudy samples keep their order. */
  lemma {:induction false} PositivesConcat(a: seq<real>, b: seq<real>)
    ensures Positives(a + b) == Positives(a) + Positives(b)
    decreases |b|
  {
    if |b| == 0 {
      assert a + b == a;
    } else {
      var b' := b[..|b| - 1];
      assert (a + b)[..|a + b| - 1] == a + b';
      PositivesConcat(a, b');
    }
  }

  /** A single sample is cloudy exactly when it is positive. */
  lemma PositivesSingle(x: real)
    ensures Positives([x]) == if x > 0.0 then [x] else []
  {
    assert [x][..0] == [];
  }

  /** The cloud fraction in percent: cloudy samples over all samples, 0 for no samples. */
  function CloudFraction(h: seq<real>): (cf: real)
    ensures 0.0 <= cf <= 100.0
    ensures |h| > 0 ==> cf * (|h| as real) == 100.0 * (|Positives(h)| as real)
  {
    if |h| == 0 then 0.0
    else
      Percent(|Positives(h)| as real, |h| as real);
      (|Positives(h)| as real) / (|h| as real) * 100.0
  }

  /** A part `c` of a positive whole `n`, in percent: at most 100, and `n` times it is 100 `c`. */
  lemma Percent(c: real, n: real)
    requires 0.0 <= c <= n && n > 0.0
    ensures 0.0 <= c / n * 100.0 <= 100.0
    ensures c / n * 100.0 * n == 100.0 * c
  {
    assert c / n <= 1.0;
    assert c / n * n == c;
  }

  function Sum(xs: seq<real>): real
    decreases |xs|
  {
    if |xs| == 0 then 0.0 else Sum(xs[..|xs| - 1]) + xs[|xs| - 1]
  }

  /** `np.min`: a member no larger than any other. */
  function Min(xs: seq<real>): (m: real)
    requires |xs| > 0
    ensures m in xs
    ensures forall i :: 0 <= i < |xs| ==> m <= xs[i]
    decreases |xs|
  {
    if |xs| == 1 then xs[0]
    else
      var m := Min(xs[..|xs| - 1]);
      assert forall i :: 0 <= i < |xs| - 1 ==> xs[..|xs| - 1][i] == xs[i];
      if xs[|xs| - 1] < m then xs[|xs| - 1] else m
  }

  /** `np.max`: a member no smaller than any other. */
  function Max(xs: seq<real>): (m: real)
    requires |xs| > 0
    ensures m in xs
    ensures forall i :: 0 <= i < |xs| ==> xs[i] <= m
    decreases |xs|
  {
    if |xs| == 1 then xs[0]
    else
      var m := Max(xs[..|xs| - 1]);
      assert forall i :: 0 <= i < |xs| - 1 ==> xs[..|xs| - 1][i] == xs[i];
      if xs[|xs| - 1] > m then xs[|xs| - 1] else m
  }

  /** `np.mean`: the sum over the count. */
  function Mean(xs: seq<real>): (m: real)
    requires |xs| > 0
    ensures m * (|xs| as real) == Sum(xs)
  {
    Sum(xs) / (|xs| as real)
  }

  /** Every positive sample is among the cloudy ones. */
  lemma {:induction false} PositivesComplete(h: seq<real>, i: nat)
    requires i < |h| && h[i] > 0.0
    ensures h[i] in Positives(h)
    decreases |h|
  {
    if i < |h| - 1 {
      assert h[..|h| - 1][i] == h[i];
      PositivesComplete(h[..|h| - 1], i);
    }
  }

  /** All samples are cloudy exactly when every sample is positive. */
  lemma {:induction false} PositivesAll(h: seq<real>)
    ensures |Positives(h)| == |h| <==> forall i :: 0 <= i < |h| ==> h[i] > 0.0
    decreases |h|
  {
    if |h| > 0 {
      var init := h[..|h| - 1];
      PositivesAll(init);
      assert forall i :: 0 <= i < |h| - 1 ==> init[i] == h[i];
    }
  }

  /** No sample is cloudy exactly when no sample is positive. */
  lemma {:induction false} PositivesNone(h: seq<real>)
    ensures |Positives(h)| == 0 <==> forall i :: 0 <= i < |h| ==> h[i] <= 0.0
    decreases |h|
  {
    if |h| > 0 {
      var init := h[..|h| - 1];
      PositivesNone(init);
      assert forall i :: 0 <= i < |h| - 1 ==> init[i] == h[i];
    }
  }

  /** The fraction is 100% exactly when there are samples and every one is cloudy. */
  lemma CloudFractionAll(h: seq<real>)
    ensures CloudFraction(h) == 100.0 <==> |h| > 0 && forall i :: 0 <= i < |h| ==> h[i] > 0.0
  {
    PositivesAll(h);
    if |h| > 0 {
      var c, n := |Positives(h)| as real, |h| as real;
      assert c / n * 100.0 == 100.0 <==> c == n;
    }
  }

  /** The fraction is 0% exactly when no sample is cloudy (an empty day included). */
  lemma CloudFractionNone(h: seq<real>)
    ensures CloudFraction(h) == 0.0 <==> forall i :: 0 <= i < |h| ==> h[i] <= 0.0
  {
    PositivesNone(h);
    if |h| > 0 {
      var c, n := |Positives(h)| as real, |h| as real;
      assert c / n * 100.0 == 0.0 <==> c == 0.0;
    }
  }

  lemma {:induction false} SumBounds(xs: seq<real>, lo: real, hi: real)
    requires forall i :: 0 <= i < |xs| ==> lo <= xs[i] <= hi
    ensures (|xs| as real) * lo <= Sum(xs) <= (|xs| as real) * hi
    decreases |xs|
  {
    if |xs| > 0 {
      var init := xs[..|xs| - 1];
      assert forall i :: 0 <= i < |init| ==> init[i] == xs[i];
      SumBounds(init, lo, hi);
    }
  }

  /** Bounds on every sample bound their mean. */
  lemma MeanBounds(xs: seq<real>, lo: real, hi: real)
    requires |xs| > 0
    requires forall i :: 0 <= i < |xs| ==> lo <= xs[i] <= hi
    ensures lo <= Mean(xs) <= hi
  {
    SumBounds(xs, lo, hi);
    QuotientBounds(Sum(xs), |xs| as real, lo, hi);
  }

  /** The mean lies between the minimum and the maximum. */
  lemma MeanBetween(xs: seq<real>)
    requires |xs| > 0
    ensures Min(xs) <= Mean(xs) <= Max(xs)
  {
    MeanBounds(xs, Min(xs), Max(xs));
  }

  /** Dividing bounds `n * lo <= a <= n * hi` by a positive `n`. */
  lemma QuotientBounds(a: real, n: real, lo: real, hi: real)
    requires n > 0.0 && n * lo <= a <= n * hi
    ensures lo <= a / n <= hi
  {
  }

  /**
   * On a day with cloudy samples, the minimum and maximum are cloudy samples
   * of `h1` and bracket the mean.
   */
  lemma CloudyStats(h: seq<real>)
    requires |Positives(h)| > 0
    ensures Min(Positives(h)) > 0.0 && Min(Positives(h)) in h
    ensures Max(Positives(h)) > 0.0 && Max(Positives(h)) in h
    ensures Min(Positives(h)) <= Mean(Positives(h)) <= Max(Positives(h))
    ensures forall i :: 0 <= i < |h| && h[i] > 0.0 ==> Min(Positives(h)) <= h[i] <= Max(Positives(h))
  {
    var p := Positives(h);
    MeanBetween(p);
    forall i | 0 <= i < |h| && h[i] > 0.0
      ensures Min(p) <= h[i] <= Max(p)
    {
      PositivesComplete(h, i);
    }
  }

  /** Samples 150, 0 and 200 give a cloud fraction of 200/3 percent, extremes 150 and 200, and mean 175. */
  lemma ExampleDay()
    ensures CloudFraction([150.0, 0.0, 200.0]) == 200.0 / 3.0
    ensures Positives([150.0, 0.0, 200.0]) == [150.0, 200.0]
    ensures Min([150.0, 200.0]) == 150.0 && Max([150.0, 200.0]) == 200.0
    ensures Mean([150.0, 200.0]) == 175.0
  {
    ExampleCloudy();
    ExampleFraction();
    assert [150.0, 200.0][..1] == [150.0];
    assert Sum([150.0, 200.0]) == 350.0;
  }

  lemma ExampleCloudy()
    ensures Positives([150.0, 0.0, 200.0]) == [150.0, 200.0]
  {
    var h := [150.0, 0.0, 200.0];
    assert h[..2] == [150.0, 0.0] && [150.0, 0.0][..1] == [150.0] && [150.0][..0] == [];
    assert Positives([150.0]) == [150.0];
    assert Positives([150.0, 0.0]) == [150.0];
  }

  lemma ExampleFraction()
    ensures CloudFraction([150.0, 0.0, 200.0]) == 200.0 / 3.0
  {
    ExampleCloudy();
    var h := [150.0, 0.0, 200.0];
    assert |Positives(h)| == 2 && |h| == 3;
    assert (2 as real) / (3 as real) * 100.0 == 200.0 / 3.0;
  }

  // ---------------------------------------------------------------------
  // The four statistic attributes

  /**
   * The attributes `cf`, `min`, `max` and `mean` of a record; `None` where
   * the attribute has not been set.
   */
  datatype Statistics = Statistics(cf: Option<real>, min: Option<real>, max: Option<real>, mean: Option<real>)

  /** A record read from the feed has none of the four attributes yet. */
  const Unset := Statistics(None, None, None, None)

  /**
   * The attributes after `stats` on heights `h`: the cloud fraction is always
   * set, within [0, 100]; on a day with cloudy samples the extremes are
   * cloudy samples of `h` that bracket the mean; otherwise the extremes and
   * the mean are left as they were.  The guard `len(flt[0] > 0)` is the
   * length of a mask over the cloudy indices, so it is the cloudy count.
   */
  function Update(h: seq<real>, prior: Statistics): (u: Statistics)
    ensures u.cf == Some(CloudFraction(h)) && 0.0 <= u.cf.value <= 100.0
    ensures |Positives(h)| == 0 ==> u == prior.(cf := Some(0.0))
    ensures |Positives(h)| > 0 ==>
              && u.min.Some? && u.min.value in h && u.min.value > 0.0
              && u.max.Some? && u.max.value in h && u.max.value > 0.0
              && u.mean.Some? && u.min.value <= u.mean.value <= u.max.value
    ensures |Positives(h)| > 0 ==>
              && (forall i :: 0 <= i < |h| && h[i] > 0.0 ==> u.min.value <= h[i] <= u.max.value)
              && u.mean == Some(Mean(Positives(h)))
  {
    var flt := Positives(h);
    var cf := Some(CloudFraction(h));
    if |flt| > 0 then
      CloudyStats(h);
      prior.(min := Some(Min(flt)), max := Some(Max(flt)), mean := Some(Mean(flt)), cf := cf)
    else
      prior.(cf := cf)
  }

  /** The four statistics as the store holds them. */
  datatype Stored = Stored(cf: real, min: real, max: real, mean: real)

  /**
   * What `save` writes of the statistics: all four when the record has a
   * `mean`, none otherwise.
   */
  function Saved(st: Statistics): (o: Option<Stored>)
    requires st.mean.Some? ==> st.cf.Some? && st.min.Some? && st.max.Some?
    ensures o.Some? <==> st.mean.Some?
    ensures st.mean.Some? ==> Restored(o) == Stored(st.cf.value, st.min.value, st.max.value, st.mean.value)
    ensures st.mean.None? ==> Restored(o) == Stored(0.0, 0.0, 0.0, 0.0)
  {
    if st.mean.Some? then Some(Stored(st.cf.value, st.min.value, st.max.value, st.mean.value)) else None
  }

  /** What loading a stored record gives: the stored statistics, or zeros where there are none. */
  function Restored(o: Option<Stored>): Stored {
    match o
    case Some(st) => st
    case None => Stored(0.0, 0.0, 0.0, 0.0)
  }

  /**
   * Saving the statistics of a freshly read day and loading them back gives
   * the cloud fraction that `stats` computed, even on a day without clouds,
   * when nothing is written; on a cloudy day it gives all four values.
   */
  lemma SaveRestore(h: seq<real>)
    ensures var st := Update(h, Unset);
      && (st.mean.Some? ==> st.cf.Some? && st.min.Some? && st.max.Some?)
      && Restored(Saved(st)).cf == CloudFraction(h)
      && (|Positives(h)| > 0 ==>
            Restored(Saved(st)) == Stored(CloudFraction(h), Min(Positives(h)), Max(Positives(h)), Mean(Positives(h))))
  {
  }
}
