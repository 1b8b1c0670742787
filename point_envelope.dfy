/**
 * The values `nongrid_data.__init__` derives from the flattened latitudes and
 * longitudes: bounding box, "centre", UTM-style zone and hemisphere. Every
 * formula is the one the class uses, including its operator precedence and
 * Python's `int()` truncation.
 */
module PointEnvelope {

  /** Python's `min` over a non-empty sequence: a least element. */
  function SeqMin(s: seq<real>): (m: real)
    requires |s| > 0
    ensures m in s
    ensures forall i :: 0 <= i < |s| ==> m <= s[i]
  {
    if |s| == 1 then s[0]
    else
      var rest := SeqMin(s[1..]);
      if s[0] <= rest then s[0] else rest
  }

  /** Python's `max` over a non-empty sequence: a greatest element. */
  function SeqMax(s: seq<real>): (m: real)
    requires |s| > 0
    ensures m in s
    ensures forall i :: 0 <= i < |s| ==> s[i] <= m
  {
    if |s| == 1 then s[0]
    else
      var rest := SeqMax(s[1..]);
      if s[0] >= rest then s[0] else rest
  }

  /**
   * The "centre" as the class computes it: `max - min / 2`, division binding
   * tighter. When min <= max it never falls below half the maximum; it exceeds the maximum
   * exactly when the minimum is negative, and it is the true midpoint only
   * when the maximum is twice the minimum.
   */
  function MidAsWritten(maxV: real, minV: real): (r: real)
    ensures minV <= maxV ==> maxV / 2.0 <= r
    ensures r <= maxV <==> 0.0 <= minV
    ensures r == TrueMid(minV, maxV) <==> maxV == 2.0 * minV
  {
    maxV - minV / 2.0
  }

  /** The arithmetic midpoint of an interval, for comparison with `MidAsWritten`. */
  function TrueMid(minV: real, maxV: real): (m: real)
    ensures minV <= maxV ==> minV <= m <= maxV
    ensures m - minV == maxV - m
  {
    (minV + maxV) / 2.0
  }

  /** Python's `int(x)` on a float: truncation toward zero. */
  function PyInt(x: real): (n: int)
    ensures 0.0 <= x ==> 0 <= n && n as real <= x < n as real + 1.0
    ensures x < 0.0 ==> n <= 0 && n as real - 1.0 < x <= n as real
  {
    if x >= 0.0 then x.Floor else -((-x).Floor)
  }

  /**
   * The zone as the class computes it: `int(((mid_lon - 3 + 180) / 6) + 1)`.
   * Where the argument of `int` is non-negative (centre at or east of -183
   * degrees) this is the conventional zone of a longitude three degrees
   * further west; further west still the argument is negative, so `int`
   * rounds it up (the ceiling) and the zone is never positive.
   */
  function UtmZoneOf(midLon: real): (z: int)
    ensures midLon >= -183.0 ==> z == StandardZone(midLon - 3.0)
    ensures midLon < -183.0 ==> z <= 0 && (z - 1) as real < (midLon + 183.0) / 6.0 <= z as real
  {
    var y := (midLon - 3.0 + 180.0) / 6.0;
    assert y.Floor as real <= y < y.Floor as real + 1.0;
    assert (y.Floor + 1) as real <= y + 1.0 < (y.Floor + 1) as real + 1.0;
    PyInt(y + 1.0)
  }

  /** Conventional 6-degree zone numbering, `floor((lon + 180) / 6) + 1`, for comparison. */
  function StandardZone(lon: real): int
  {
    ((lon + 180.0) / 6.0).Floor + 1
  }

  /** "S" south of the equator, "N" otherwise (the equator itself is "N"). */
  function HemisphereOf(midLat: real): (h: string)
    ensures h == "S" || h == "N"
    ensures h == "S" <==> midLat < 0.0
  {
    if midLat < 0.0 then "S" else "N"
  }

  /** Everything the class derives from its coordinates, as one value. */
  datatype Envelope = Envelope(
    minLat: real, maxLat: real, minLon: real, maxLon: real,
    midLon: real, midLat: real,
    utmZone: int, hemisphere: string)

  /**
   * The envelope of non-empty coordinate sequences. The bounds are attained
   * elements that enclose every sample; the centre is `MidAsWritten` of the
   * bounds, the zone is `UtmZoneOf` the centre longitude, and the hemisphere
   * is "S" exactly when the centre latitude is negative.
   */
  function EnvelopeOf(lat: seq<real>, lon: seq<real>): (e: Envelope)
    requires |lat| > 0 && |lon| > 0
    ensures e.minLat in lat && e.maxLat in lat && e.minLon in lon && e.maxLon in lon
    ensures forall i :: 0 <= i < |lat| ==> e.minLat <= lat[i] <= e.maxLat
    ensures forall i :: 0 <= i < |lon| ==> e.minLon <= lon[i] <= e.maxLon
    ensures e.midLon == MidAsWritten(e.maxLon, e.minLon) && e.midLat == MidAsWritten(e.maxLat, e.minLat)
    ensures e.utmZone == UtmZoneOf(e.midLon)
    ensures e.hemisphere == "S" || e.hemisphere == "N"
    ensures e.hemisphere == "S" <==> e.midLat < 0.0
  {
    var minLat, maxLat := SeqMin(lat), SeqMax(lat);
    var minLon, maxLon := SeqMin(lon), SeqMax(lon);
    var midLon := MidAsWritten(maxLon, minLon);
    var midLat := MidAsWritten(maxLat, minLat);
    Envelope(minLat, maxLat, minLon, maxLon, midLon, midLat,
             UtmZoneOf(midLon), HemisphereOf(midLat))
  }

  /** The least element depends only on the multiset of elements. */
  lemma SeqMinMultiset(s: seq<real>, t: seq<real>)
    requires |s| > 0 && multiset(s) == multiset(t)
    ensures |t| > 0 && SeqMin(s) == SeqMin(t)
  {
    assert |t| == |multiset(t)| == |multiset(s)| == |s|;
    var a, b := SeqMin(s), SeqMin(t);
    assert a in multiset(t);
    assert b in multiset(s);
  }

  /** The greatest element depends only on the multiset of elements. */
  lemma SeqMaxMultiset(s: seq<real>, t: seq<real>)
    requires |s| > 0 && multiset(s) == multiset(t)
    ensures |t| > 0 && SeqMax(s) == SeqMax(t)
  {
    assert |t| == |multiset(t)| == |multiset(s)| == |s|;
    var a, b := SeqMax(s), SeqMax(t);
    assert a in multiset(t);
    assert b in multiset(s);
  }

  /**
   * Reordering the samples leaves every derived value unchanged. (The data
   * values are not an argument of `EnvelopeOf` at all.)
   */
  lemma EnvelopePermutationInvariant(lat: seq<real>, lon: seq<real>, lat': seq<real>, lon': seq<real>)
    requires |lat| > 0 && |lon| > 0
    requires multiset(lat) == multiset(lat') && multiset(lon) == multiset(lon')
    ensures |lat'| > 0 && |lon'| > 0
    ensures EnvelopeOf(lat, lon) == EnvelopeOf(lat', lon')
  {
    SeqMinMultiset(lat, lat');
    SeqMaxMultiset(lat, lat');
    SeqMinMultiset(lon, lon');
    SeqMaxMultiset(lon, lon');
  }

  /** `max - min / 2` lies in [min, max] exactly when min >= 0 and 3 * min <= 2 * max. */
  lemma MidAsWrittenVersusBox(minV: real, maxV: real)
    requires minV <= maxV
    ensures (minV <= MidAsWritten(maxV, minV) <= maxV) <==> (0.0 <= minV && 3.0 * minV <= 2.0 * maxV)
  {
  }

  /** A single sample at latitude 10 gets a "centre" latitude of 5, outside its own box. */
  lemma MidAsWrittenLeavesBox()
    ensures EnvelopeOf([10.0], [0.0]).midLat == 5.0
    ensures EnvelopeOf([10.0], [0.0]).maxLat == 10.0
  {
  }

  /** Truncation and flooring disagree on negative non-integers. */
  lemma PyIntIsNotFloor(x: real)
    requires x < 0.0 && x != x.Floor as real
    ensures PyInt(x) == x.Floor + 1
  {
  }

  /** Examples: a centre at 0 degrees lands in zone 30, where the conventional zone is 31. */
  lemma ZoneExamples()
    ensures UtmZoneOf(0.0) == 30 && StandardZone(0.0) == 31
    ensures UtmZoneOf(3.0) == 31
    ensures UtmZoneOf(-180.0) == 0
  {
    assert (0.0 - 3.0 + 180.0) / 6.0 + 1.0 == 30.5;
    assert (3.0 - 3.0 + 180.0) / 6.0 + 1.0 == 31.0;
    assert (-180.0 - 3.0 + 180.0) / 6.0 + 1.0 == 0.5;
  }

  /**
   * For longitudes within [-180, 180] the computed centre lies in [-90, 270],
   * so the zone the class derives is always between 15 and 75.
   */
  lemma {:induction false} ZoneRangeForValidLongitudes(lat: seq<real>, lon: seq<real>)
    requires |lat| > 0 && |lon| > 0
    requires forall i :: 0 <= i < |lon| ==> -180.0 <= lon[i] <= 180.0
    ensures -90.0 <= EnvelopeOf(lat, lon).midLon <= 270.0
    ensures 15 <= EnvelopeOf(lat, lon).utmZone <= 75
  {
    var e := EnvelopeOf(lat, lon);
    assert -180.0 <= e.minLon <= e.maxLon <= 180.0;
    assert e.midLon == e.maxLon - e.minLon / 2.0;
    assert e.utmZone == UtmZoneOf(e.midLon);
    var x := (e.midLon - 3.0 + 180.0) / 6.0 + 1.0;
    assert 15.5 <= x <= 75.5;
  }
}
