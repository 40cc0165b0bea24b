/**
 * `Coordinates`: a validated (latitude, longitude) pair. The raw values are kept
 * as given; identity, hashing and caching go through the normalised cache key
 * "lat:lon", each part rounded HALF_UP to hundredths and printed with two
 * fractional digits.
 */
module GeoCoordinates {
  import opened JavaLang
  import opened JavaStrings
  import opened DecimalFormat

  const MinLatitude: real := -90.0
  const MaxLatitude: real := 90.0
  const MinLongitude: real := -180.0
  const MaxLongitude: real := 180.0
  const CacheKeyPrecision: nat := 2

  type Latitude = x: real | MinLatitude <= x <= MaxLatitude
  type Longitude = x: real | MinLongitude <= x <= MaxLongitude

  /** A constructed record: the compact constructor admits only values in range. */
  datatype Coordinates = Coordinates(latitude: Latitude, longitude: Longitude)

  datatype Dimension = Lat | Lon

  function DimensionName(d: Dimension): string {
    match d
    case Lat => "Latitude"
    case Lon => "Longitude"
  }

  function MinValue(d: Dimension): real {
    match d
    case Lat => MinLatitude
    case Lon => MinLongitude
  }

  function MaxValue(d: Dimension): real {
    match d
    case Lat => MaxLatitude
    case Lon => MaxLongitude
  }

  predicate InRange(d: Dimension, x: Double) {
    x.Finite? && MinValue(d) <= x.value <= MaxValue(d)
  }

  /** `String.format("%.6f", v)`, the value shown in a range error. */
  function SixDecimals(v: real): string {
    FormatFixed(RoundHalfUp(v, 6), 6)
  }

  /** "Latitude must be a valid number" / "Longitude must be a valid number". */
  function NotANumberMessage(d: Dimension): string {
    DimensionName(d) + " must be a valid number"
  }

  /** What follows the dimension's name in a range error. */
  function OutOfRangeDetail(d: Dimension, v: real): string {
    " must be between " +
    (match d case Lat => "-90.0 and 90.0" case Lon => "-180.0 and 180.0") +
    ", got: " + SixDecimals(v)
  }

  /** "Latitude must be between -90.0 and 90.0, got: <v as %.6f>", and the same for longitude. */
  function OutOfRangeMessage(d: Dimension, v: real): string {
    DimensionName(d) + OutOfRangeDetail(d, v)
  }

  /** `validateLatitude` / `validateLongitude`: None when the value passes, else the
      exception thrown; NaN and the infinities are refused before the range is looked at. */
  function Validate(d: Dimension, x: Double): (r: Option<Exception>)
    ensures r.None? <==> InRange(d, x)
    ensures !x.Finite? ==> r == Some(IllegalArgumentException(NotANumberMessage(d)))
    ensures x.Finite? && !InRange(d, x) ==> r == Some(IllegalArgumentException(OutOfRangeMessage(d, x.value)))
  {
    match x
    case Finite(v) =>
      if v < MinValue(d) || v > MaxValue(d) then Some(IllegalArgumentException(OutOfRangeMessage(d, v)))
      else None
    case _ => Some(IllegalArgumentException(NotANumberMessage(d)))
  }

  /** `Coordinates.of` / the compact constructor: latitude is validated first, then longitude. */
  function Of(lat: Double, lon: Double): (r: Result<Coordinates, Exception>)
    ensures r.Ok? <==> InRange(Lat, lat) && InRange(Lon, lon)
    ensures r.Ok? ==> r.value.latitude == lat.value && r.value.longitude == lon.value
    ensures !InRange(Lat, lat) ==> r == Err(Validate(Lat, lat).value)
    ensures InRange(Lat, lat) && !InRange(Lon, lon) ==> r == Err(Validate(Lon, lon).value)
  {
    match Validate(Lat, lat)
    case Some(e) => Err(e)
    case None =>
      match Validate(Lon, lon)
      case Some(e) => Err(e)
      case None => Ok(Coordinates(lat.value, lon.value))
  }

  lemma StartsWithAppend(s: string, x: string)
    ensures StartsWith(s + x, s)
  {
    assert (s + x)[..|s|] == s;
  }

  /** Each validation error names the dimension it is about. */
  lemma ValidateNamesDimension(d: Dimension, x: Double)
    ensures Validate(d, x).Some? ==>
      Validate(d, x).value.IllegalArgumentException? && StartsWith(Validate(d, x).value.message, DimensionName(d))
  {
    if x.Finite? {
      StartsWithAppend(DimensionName(d), OutOfRangeDetail(d, x.value));
    } else {
      StartsWithAppend(DimensionName(d), " must be a valid number");
    }
  }

  /** The message of a rejection opens with the name of the dimension that failed, and
      latitude's failure wins when both fail. */
  lemma ErrorNamesDimension(lat: Double, lon: Double)
    ensures var r := Of(lat, lon);
      r.Err? ==>
        (r.error.IllegalArgumentException? &&
         StartsWith(r.error.message, DimensionName(if InRange(Lat, lat) then Lon else Lat)))
  {
    ValidateNamesDimension(Lat, lat);
    ValidateNamesDimension(Lon, lon);
  }

  /** `roundToScale(latitude, 2)`, in hundredths. */
  function LatitudeHundredths(c: Coordinates): (n: int)
    ensures -9000 <= n <= 9000
  {
    RoundHalfUpWithin(c.latitude, CacheKeyPrecision, -9000, 9000);
    RoundHalfUp(c.latitude, CacheKeyPrecision)
  }

  /** `roundToScale(longitude, 2)`, in hundredths. */
  function LongitudeHundredths(c: Coordinates): (n: int)
    ensures -18000 <= n <= 18000
  {
    RoundHalfUpWithin(c.longitude, CacheKeyPrecision, -18000, 18000);
    RoundHalfUp(c.longitude, CacheKeyPrecision)
  }

  /** `normalizedLatitude()`: still a valid latitude, and within half a hundredth of the raw one. */
  function NormalizedLatitude(c: Coordinates): (v: Latitude)
    ensures -0.005 <= v - c.latitude <= 0.005
  {
    LatitudeHundredths(c) as real / 100.0
  }

  /** `normalizedLongitude()`: still a valid longitude, and within half a hundredth of the raw one. */
  function NormalizedLongitude(c: Coordinates): (v: Longitude)
    ensures -0.005 <= v - c.longitude <= 0.005
  {
    LongitudeHundredths(c) as real / 100.0
  }

  /** `formatCoordinate`: `String.format("%.2f", roundToScale(value, 2))`. The rounded double
      prints back as its own two-decimal value, so the string is that of the hundredths. */
  function FormatCoordinate(hundredths: int): string {
    FormatFixed(hundredths, CacheKeyPrecision)
  }

  /** `toCacheKey()`. */
  function CacheKey(c: Coordinates): string {
    FormatCoordinate(LatitudeHundredths(c)) + ":" + FormatCoordinate(LongitudeHundredths(c))
  }

  /** The index of the first ':' in `s`, or |s| when there is none. */
  function IndexOfColon(s: string): (i: nat)
    ensures i <= |s| && (i < |s| ==> s[i] == ':')
    ensures forall j :: 0 <= j < i ==> s[j] != ':'
  {
    if s == [] || s[0] == ':' then 0 else 1 + IndexOfColon(s[1..])
  }

  /** Reads a cache key back into the hundredths of latitude and longitude. */
  function ParseCacheKey(key: string): Option<(int, int)> {
    var i := IndexOfColon(key);
    if i == |key| then None
    else
      match (ParseFixed(key[..i], CacheKeyPrecision), ParseFixed(key[i + 1..], CacheKeyPrecision))
      case (Some(lat), Some(lon)) => Some((lat, lon))
      case _ => None
  }

  lemma IndexOfColonAfterNumeral(x: string, y: string)
    requires IsNumeral(x)
    ensures IndexOfColon(x + ":" + y) == |x|
  {
    var s := x + ":" + y;
    assert s[|x|] == ':';
    assert forall j :: 0 <= j < |x| ==> s[j] == x[j];
  }

  /** The round trip: the cache key records exactly the two normalised values. */
  lemma ParseCacheKeyRoundTrip(c: Coordinates)
    ensures ParseCacheKey(CacheKey(c)) == Some((LatitudeHundredths(c), LongitudeHundredths(c)))
  {
    var x := FormatCoordinate(LatitudeHundredths(c));
    var y := FormatCoordinate(LongitudeHundredths(c));
    FormatFixedShape(LatitudeHundredths(c), CacheKeyPrecision);
    IndexOfColonAfterNumeral(x, y);
    var key := x + ":" + y;
    assert key[..|x|] == x;
    assert key[|x| + 1..] == y;
    ParseFormatFixed(LatitudeHundredths(c), CacheKeyPrecision);
    ParseFormatFixed(LongitudeHundredths(c), CacheKeyPrecision);
  }

  /** `equals`: two coordinates are the same exactly when their cache keys are. */
  predicate Equal(a: Coordinates, b: Coordinates) {
    CacheKey(a) == CacheKey(b)
  }

  /** `Objects.hash(s)` of one string: 31 * 1 + the string's hash, in `int` arithmetic. */
  function ObjectsHash(s: string): (h: int)
    ensures IsInt32(h)
  {
    WrapInt32(31 + StringHashCode(s))
  }

  /** `hashCode()`: `Objects.hash(toCacheKey())`. */
  function HashCode(c: Coordinates): (h: int)
    ensures IsInt32(h)
  {
    ObjectsHash(CacheKey(c))
  }

  /** Equality is decided by the normalised values alone, in both directions. */
  lemma EqualIffSameNormalized(a: Coordinates, b: Coordinates)
    ensures Equal(a, b) <==>
      LatitudeHundredths(a) == LatitudeHundredths(b) && LongitudeHundredths(a) == LongitudeHundredths(b)
  {
    ParseCacheKeyRoundTrip(a);
    ParseCacheKeyRoundTrip(b);
  }

  /** Equal coordinates have equal hash codes. */
  lemma EqualHashCodes(a: Coordinates, b: Coordinates)
    ensures Equal(a, b) ==> HashCode(a) == HashCode(b)
  {
  }

  lemma NormalizedLatitudeExact(c: Coordinates)
    ensures RoundHalfUp(NormalizedLatitude(c), CacheKeyPrecision) == LatitudeHundredths(c)
  {
    RoundHalfUpExact(LatitudeHundredths(c), CacheKeyPrecision);
  }

  lemma NormalizedLongitudeExact(c: Coordinates)
    ensures RoundHalfUp(NormalizedLongitude(c), CacheKeyPrecision) == LongitudeHundredths(c)
  {
    RoundHalfUpExact(LongitudeHundredths(c), CacheKeyPrecision);
  }

  /** Normalising twice changes nothing: rebuilding a coordinate from its normalised values
      keeps its normalised values, its key and therefore its identity. */
  lemma NormalizationIdempotent(c: Coordinates)
    ensures var n := Coordinates(NormalizedLatitude(c), NormalizedLongitude(c));
      && LatitudeHundredths(n) == LatitudeHundredths(c)
      && LongitudeHundredths(n) == LongitudeHundredths(c)
      && CacheKey(n) == CacheKey(c)
      && Equal(n, c)
  {
    NormalizedLatitudeExact(c);
    NormalizedLongitudeExact(c);
  }

  /** HALF_UP on the decimal value: the tie 52.525 goes up, its negation goes down, and a
      value just below the tie goes down. */
  lemma RoundingExamples()
    ensures RoundHalfUp(52.525, CacheKeyPrecision) == 5253
    ensures RoundHalfUp(-52.525, CacheKeyPrecision) == -5253
    ensures RoundHalfUp(52.524999, CacheKeyPrecision) == 5252
    ensures RoundHalfUp(-13.415, CacheKeyPrecision) == -1342
  {
    RoundHalfUpUnique(52.525, CacheKeyPrecision, 5253);
    RoundHalfUpUnique(-52.525, CacheKeyPrecision, -5253);
    RoundHalfUpUnique(52.524999, CacheKeyPrecision, 5252);
    RoundHalfUpUnique(-13.415, CacheKeyPrecision, -1342);
  }

  lemma ZeroFormat()
    ensures FormatCoordinate(0) == "0.00"
  {
    assert FixedDigits(0, 2) == "0.00";
  }

  lemma SouthPoleFormat()
    ensures FormatCoordinate(-9000) == "-90.00"
  {
    assert NatDigits(90) == "90";
    assert FixedDigits(900, 1) == "90.0";
    assert FixedDigits(9000, 2) == "90.00";
  }

  lemma DateLineWestFormat()
    ensures FormatCoordinate(-18000) == "-180.00"
  {
    assert NatDigits(18) == "18";
    assert NatDigits(180) == "180";
    assert FixedDigits(1800, 1) == "180.0";
    assert FixedDigits(18000, 2) == "180.00";
  }

  lemma OriginKey()
    ensures CacheKey(Coordinates(0.0, 0.0)) == "0.00:0.00"
  {
    RoundHalfUpUnique(0.0, CacheKeyPrecision, 0);
    ZeroFormat();
  }

  lemma SouthPoleKey()
    ensures CacheKey(Coordinates(-90.0, 0.0)) == "-90.00:0.00"
  {
    RoundHalfUpUnique(-90.0, CacheKeyPrecision, -9000);
    RoundHalfUpUnique(0.0, CacheKeyPrecision, 0);
    SouthPoleFormat();
    ZeroFormat();
  }

  lemma DateLineWestKey()
    ensures CacheKey(Coordinates(0.0, -180.0)) == "0.00:-180.00"
  {
    RoundHalfUpUnique(0.0, CacheKeyPrecision, 0);
    RoundHalfUpUnique(-180.0, CacheKeyPrecision, -18000);
    ZeroFormat();
    DateLineWestFormat();
  }

  /** 52.525 and 13.415 are both ties and both go up. */
  lemma RoundedCityKey()
    ensures CacheKey(Coordinates(52.525, 13.415)) == "52.53:13.42"
  {
    RoundHalfUpUnique(52.525, CacheKeyPrecision, 5253);
    RoundHalfUpUnique(13.415, CacheKeyPrecision, 1342);
    assert NatDigits(52) == "52";
    assert FixedDigits(5253, 2) == "52.53";
    assert NatDigits(13) == "13";
    assert FixedDigits(1342, 2) == "13.42";
  }
}
