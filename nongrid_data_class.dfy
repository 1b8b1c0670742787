/**
 * The class `nongrid_data`: scattered latitude/longitude/value samples with the
 * bounding box, centre, UTM zone and hemisphere computed once at construction.
 */
module NongridDataClass {
  import opened Wrappers
  import opened NdArrays
  import opened PointEnvelope

  /** Why construction raises: lengths differ after flattening, or there are no samples (`min` of nothing). */
  datatype InitError =
    | ShapeMismatch(latCount: nat, lonCount: nat, dataCount: nat)
    | EmptyInput

  /**
   * The foreign routine `LLtoUTM(lat, lon, zone, hemisphere)`, which returns
   * projected (x, y); its module is not part of this model, so it is a parameter.
   */
  type UtmProjection = (real, real, int, string) -> (real, real)

  class NongridData {
    var lat: seq<real>
    var lon: seq<real>
    var data: seq<real>
    var minLat: real
    var maxLat: real
    var minLon: real
    var maxLon: real
    var midLon: real
    var midLat: real
    var utmZone: int
    var hemisphere: string
    var minUtmX: real
    var minUtmY: real
    var maxUtmX: real
    var maxUtmY: real

    /** The derived fields, gathered into one value. */
    function Summary(): Envelope
      reads this
    {
      Envelope(minLat, maxLat, minLon, maxLon, midLon, midLat, utmZone, hemisphere)
    }

    /**
     * The object invariant: three aligned non-empty sample sequences, and the
     * derived fields are the envelope of the coordinates.
     */
    ghost predicate Valid()
      reads this
    {
      |lat| == |lon| == |data| && |lat| > 0 &&
      Summary() == EnvelopeOf(lat, lon)
    }

    /**
     * The body of `__init__` after the length check, on inputs that passed it:
     * stores the samples, then assigns bounding box, centre, zone, hemisphere
     * and the projected corners in that order.
     */
    constructor (flatLat: seq<real>, flatLon: seq<real>, flatData: seq<real>, llToUtm: UtmProjection)
      requires |flatLat| == |flatLon| == |flatData| && |flatLat| > 0
      ensures Valid()
      ensures lat == flatLat && lon == flatLon && data == flatData
      ensures (minUtmX, minUtmY) == llToUtm(minLat, minLon, utmZone, hemisphere)
      ensures (maxUtmX, maxUtmY) == llToUtm(maxLat, maxLon, utmZone, hemisphere)
    {
      lat := flatLat;
      lon := flatLon;
      data := flatData;

      var minLa, maxLa := SeqMin(flatLat), SeqMax(flatLat);
      var minLo, maxLo := SeqMin(flatLon), SeqMax(flatLon);
      minLat, maxLat, minLon, maxLon := minLa, maxLa, minLo, maxLo;

      var midLo, midLa := maxLo - minLo / 2.0, maxLa - minLa / 2.0;
      midLon, midLat := midLo, midLa;

      var zone := PyInt((midLo - 3.0 + 180.0) / 6.0 + 1.0);
      var hemi;
      if midLa < 0.0 {
        hemi := "S";
      } else {
        hemi := "N";
      }
      utmZone, hemisphere := zone, hemi;

      var lo := llToUtm(minLa, minLo, zone, hemi);
      minUtmX, minUtmY := lo.0, lo.1;
      var hi := llToUtm(maxLa, maxLo, zone, hemi);
      maxUtmX, maxUtmY := hi.0, hi.1;
    }

    /**
     * `nongrid_data(lat, lon, data)`: flattens the three inputs; fails with
     * ShapeMismatch when the flattened lengths differ, with EmptyInput when they
     * agree but are zero, and otherwise yields a new object over the flattened samples.
     */
    static method Create(latIn: NdArray, lonIn: NdArray, dataIn: NdArray, llToUtm: UtmProjection)
      returns (r: Result<NongridData, InitError>)
      ensures r.Failure? <==>
                !(|Flatten(latIn)| == |Flatten(lonIn)| == |Flatten(dataIn)|) || |Flatten(latIn)| == 0
      ensures r.Failure? && !(|Flatten(latIn)| == |Flatten(lonIn)| == |Flatten(dataIn)|) ==>
                r.error == ShapeMismatch(|Flatten(latIn)|, |Flatten(lonIn)|, |Flatten(dataIn)|)
      ensures r.Failure? && |Flatten(latIn)| == |Flatten(lonIn)| == |Flatten(dataIn)| ==>
                r.error == EmptyInput
      ensures r.Success? ==> fresh(r.value) && r.value.Valid()
      ensures r.Success? ==>
                r.value.lat == Flatten(latIn) && r.value.lon == Flatten(lonIn) && r.value.data == Flatten(dataIn)
      ensures r.Success? ==>
                (r.value.minUtmX, r.value.minUtmY) == llToUtm(r.value.minLat, r.value.minLon, r.value.utmZone, r.value.hemisphere) &&
                (r.value.maxUtmX, r.value.maxUtmY) == llToUtm(r.value.maxLat, r.value.maxLon, r.value.utmZone, r.value.hemisphere)
    {
      var flatLat, flatLon, flatData := Flatten(latIn), Flatten(lonIn), Flatten(dataIn);
      if !(|flatLat| == |flatLon| == |flatData|) {
        return Failure(ShapeMismatch(|flatLat|, |flatLon|, |flatData|));
      }
      if |flatLat| == 0 {
        return Failure(EmptyInput);
      }
      var obj := new NongridData(flatLat, flatLon, flatData, llToUtm);
      return Success(obj);
    }
  }

  /**
   * Inputs of one shape never raise ShapeMismatch: construction from them
   * fails only when they hold no samples.
   */
  lemma SameShapeNeverMismatch(latIn: NdArray, lonIn: NdArray, dataIn: NdArray)
    requires SameShape(latIn, lonIn) && SameShape(latIn, dataIn)
    ensures |Flatten(latIn)| == |Flatten(lonIn)| == |Flatten(dataIn)|
  {
    SameShapeSameLength(latIn, lonIn);
    SameShapeSameLength(latIn, dataIn);
  }

  /**
   * Two valid objects whose coordinates are permutations of each other carry
   * the same bounding box, centre, zone and hemisphere, whatever their data.
   */
  lemma SummaryPermutationInvariant(a: NongridData, b: NongridData)
    requires a.Valid() && b.Valid()
    requires multiset(a.lat) == multiset(b.lat) && multiset(a.lon) == multiset(b.lon)
    ensures a.Summary() == b.Summary()
  {
    EnvelopePermutationInvariant(a.lat, a.lon, b.lat, b.lon);
  }
}
