/**
 * The `cloud_height` record of one day: the five series read from the feed,
 * the date, day of year and year, the four statistic attributes that
 * `stats` sets, and the name of the file `save` writes to.
 */
module CloudRecord {
  import opened Optional
  import opened Text
  import opened Feed
  import opened DailyStats

  class CloudHeight {
    var jul: seq<real>
    var loc: seq<real>
    var h1: seq<real>
    var h2: seq<real>
    var h3: seq<real>
    var date: string
    var doy: nat
    var year: string
    var cf: Option<real>
    var min: Option<real>
    var max: Option<real>
    var mean: Option<real>

    /** The four statistic attributes together. */
    function Statistics(): Statistics
      reads this
    {
      DailyStats.Statistics(cf, min, max, mean)
    }

    /** The five series together. */
    function Samples(): Series
      reads this
    {
      Series(jul, loc, h1, h2, h3)
    }

    /**
     * A record read from the web: the series are what the parser leaves for
     * the feed (empty when it was unreachable), `doy` is the day number and
     * `year` the first four characters of the date, whether or not parsing
     * succeeded.  No statistic attribute exists yet.
     */
    constructor FromFeed(date: string, jday: nat, feed: Option<seq<string>>, conv: Conv)
      ensures Samples() == Parse(feed, jday, conv)
      ensures Aligned(Samples(), jday)
      ensures this.date == date && doy == jday && year == Slice(date, 0, 4)
      ensures Statistics() == Unset
    {
      var s := ReadSeries(feed, jday, conv);
      jul, loc, h1, h2, h3 := s.jul, s.loc, s.h1, s.h2, s.h3;
      this.date := date;
      doy := jday;
      year := Slice(date, 0, 4);
      cf, min, max, mean := None, None, None, None;
    }

    /**
     * `stats`: the cloud fraction of `h1` in percent, and on a cloudy day
     * the minimum, maximum and mean of its cloudy samples; only the four
     * statistic attributes change.
     */
    method Stats()
      modifies this`cf, this`min, this`max, this`mean
      ensures Statistics() == Update(h1, old(Statistics()))
      ensures cf == Some(CloudFraction(h1)) && 0.0 <= cf.value <= 100.0
      ensures |Positives(h1)| == 0 ==> min == old(min) && max == old(max) && mean == old(mean)
      ensures |Positives(h1)| > 0 ==>
                && min.Some? && min.value in h1 && min.value > 0.0
                && max.Some? && max.value in h1 && max.value > 0.0
                && mean.Some? && min.value <= mean.value <= max.value
    {
      var tot := |h1|;
      var flt := Positives(h1);
      var cld := |flt|;
      if cld > 0 {
        min := Some(Min(flt));
        max := Some(Max(flt));
        mean := Some(Mean(flt));
      }
      if tot != 0 {
        cf := Some((cld as real) / (tot as real) * 100.0);
      } else {
        cf := Some(0.0);
      }
    }
  }

  /** `'./' + year + '_' + str(int(doy)).zfill(3) + '.h5'`, as `save` builds it. */
  function StoreFileName(year: string, doy: nat): (name: string)
    ensures |name| >= |year| + 9
    ensures name[..|year| + 3] == "./" + year + "_" && name[|name| - 3..] == ".h5"
    ensures forall k :: |year| + 3 <= k < |name| - 3 ==> IsDigit(name[k])
    ensures DigitsValue(name[|year| + 3..|name| - 3]) == doy
  {
    ZFillValue(doy, 3);
    var z := ZFill(NatToString(doy), 3);
    Framed("./" + year + "_", z, ".h5");
    "./" + year + "_" + z + ".h5"
  }

  /** The parts of `p + z + q` sit where they were put. */
  lemma Framed(p: string, z: string, q: string)
    ensures (p + z + q)[..|p|] == p && (p + z + q)[|p| + |z|..] == q
    ensures forall k :: |p| <= k < |p| + |z| ==> (p + z + q)[k] == z[k - |p|]
    ensures (p + z + q)[|p|..|p| + |z|] == z
  {
  }

  /** `'./' + str(year) + '_' + str(doy).zfill(3) + '.h5'`, as the batch driver builds it. */
  function DriverFileName(year: nat, doy: nat): (name: string)
    ensures name == StoreFileName(NatToString(year), doy)
  {
    "./" + NatToString(year) + "_" + ZFill(NatToString(doy), 3) + ".h5"
  }

  /** The driver's date string `str(y).zfill(2) + '_' + str(m).zfill(2) + '_' + str(d).zfill(2)`. */
  function DateString(y: nat, m: nat, d: nat): (date: string)
    ensures |date| >= 8 && DateChars(date)
    ensures 1000 <= y <= 9999 ==> Slice(date, 0, 4) == NatToString(y) && date[4] == '_'
  {
    var ys, ms, ds := ZFill(NatToString(y), 2), ZFill(NatToString(m), 2), ZFill(NatToString(d), 2);
    ZFillValue(y, 2);
    ZFillValue(m, 2);
    ZFillValue(d, 2);
    DateLayout(ys, ms, ds);
    if 1000 <= y <= 9999 then
      FourDigitYear(y);
      ys + "_" + ms + "_" + ds
    else ys + "_" + ms + "_" + ds
  }

  /** Digits and underscores only. */
  predicate DateChars(s: string) {
    forall k :: 0 <= k < |s| ==> IsDigit(s[k]) || s[k] == '_'
  }

  /** Three digit strings joined by underscores: only digits and underscores, the first part in front. */
  lemma DateLayout(a: string, b: string, c: string)
    requires forall k :: 0 <= k < |a| ==> IsDigit(a[k])
    requires forall k :: 0 <= k < |b| ==> IsDigit(b[k])
    requires forall k :: 0 <= k < |c| ==> IsDigit(c[k])
    ensures DateChars(a + "_" + b + "_" + c)
    ensures (a + "_" + b + "_" + c)[..|a|] == a && (a + "_" + b + "_" + c)[|a|] == '_'
  {
    JoinDateChars(a, b);
    JoinDateChars(a + "_" + b, c);
    assert (a + "_" + b + "_" + c) == a + ("_" + b + "_" + c);
  }

  lemma JoinDateChars(a: string, b: string)
    requires DateChars(a) && DateChars(b)
    ensures DateChars(a + "_" + b)
  {
    var j := a + "_" + b;
    assert forall k :: |a| < k < |j| ==> j[k] == b[k - |a| - 1];
  }

  /** A four-digit year prints as four characters. */
  lemma FourDigitYear(y: nat)
    requires 1000 <= y <= 9999
    ensures |NatToString(y)| == 4
  {
    var a, b, c := y / 10, y / 10 / 10, y / 10 / 10 / 10;
    assert 100 <= a && 10 <= b && 1 <= c < 10;
    assert |NatToString(c)| == 1;
    assert |NatToString(b)| == |NatToString(c)| + 1;
    assert |NatToString(a)| == |NatToString(b)| + 1;
    assert |NatToString(y)| == |NatToString(a)| + 1;
  }

  /**
   * For a four-digit year, the record built from the driver's date string
   * names the same file the driver checks for before reading the feed.
   */
  lemma FileNamesAgree(y: nat, m: nat, d: nat, doy: nat)
    requires 1000 <= y <= 9999
    ensures StoreFileName(Slice(DateString(y, m, d), 0, 4), doy) == DriverFileName(y, doy)
  {
  }

  /** Days of the same year are stored in different files. */
  lemma StoreFileNameInjective(year: string, d1: nat, d2: nat)
    requires StoreFileName(year, d1) == StoreFileName(year, d2)
    ensures d1 == d2
  {
    var z1, z2 := ZFill(NatToString(d1), 3), ZFill(NatToString(d2), 3);
    var n1, n2 := StoreFileName(year, d1), StoreFileName(year, d2);
    var k := |"./" + year + "_"|;
    assert n1 == ("./" + year + "_") + z1 + ".h5";
    assert n2 == ("./" + year + "_") + z2 + ".h5";
    assert |z1| == |z2|;
    assert z1 == n1[k..k + |z1|];
    assert z2 == n2[k..k + |z2|];
    ZFillValue(d1, 3);
    ZFillValue(d2, 3);
  }
}
