/**
 * Server-side location helpers (lib/location/location-service.ts): the
 * location record read from the request's geolocation headers, a lighter
 * three-field variant, membership tests and a one-line description.
 * The request headers are a map from lower-case header names to values,
 * and the clock is a `now` parameter.
 */
module LocationService {
  import opened Wrappers
  import opened JsString
  import opened LocationContext

  /** Request headers, keyed by lower-case name. */
  type Headers = map<string, string>

  const CountryHeader: string := "x-vercel-ip-country"
  const CityHeader: string := "x-vercel-ip-city"
  const RegionHeader: string := "x-vercel-ip-country-region"
  const TimezoneHeader: string := "x-vercel-ip-timezone"
  const ContinentHeader: string := "x-vercel-ip-continent"
  const LatitudeHeader: string := "x-vercel-ip-latitude"
  const LongitudeHeader: string := "x-vercel-ip-longitude"

  /** `headers.get(name)`, with `null` as `None`. */
  function Get(h: Headers, name: string): (r: Option<string>)
    ensures r.Some? <==> name in h
    ensures r.Some? ==> r.value == h[name]
  {
    if name in h then Some(h[name]) else None
  }

  /** `value || undefined`: the empty string counts as absent. */
  function OrUndefined(v: Option<string>): (r: Option<string>)
    ensures r.Some? <==> Truthy(v)
    ensures r.Some? ==> r == v && r.value != ""
  {
    if Truthy(v) then v else None
  }

  /** A header's value when it is present and non-empty. */
  function TextHeader(h: Headers, name: string): (r: Option<string>)
    ensures r.Some? <==> name in h && h[name] != ""
    ensures r.Some? ==> r.value == h[name]
  {
    OrUndefined(Get(h, name))
  }

  /** `text ? parseFloat(text) : undefined`, with the number standing for
      the text it is parsed from. */
  function CoordinateHeader(h: Headers, name: string): (r: Option<Coordinate>)
    ensures r.Some? <==> name in h && h[name] != ""
    ensures r.Some? ==> r.value == Coordinate(h[name])
  {
    var text := Get(h, name);
    if Truthy(text) then Some(Coordinate(text.value)) else None
  }

  /** `extractLocationFromHeaders`: every field read on its own, empty values
      dropped, `isDetected` set exactly when a country or a city is present,
      and the record stamped with `now`. */
  function ExtractLocationFromHeaders(h: Headers, now: int): (r: LocationData)
    ensures r.country == TextHeader(h, CountryHeader) && r.city == TextHeader(h, CityHeader)
    ensures r.region == TextHeader(h, RegionHeader) && r.timezone == TextHeader(h, TimezoneHeader)
    ensures r.continent == TextHeader(h, ContinentHeader)
    ensures r.latitude == CoordinateHeader(h, LatitudeHeader)
    ensures r.longitude == CoordinateHeader(h, LongitudeHeader)
    ensures r.isDetected <==> r.country.Some? || r.city.Some?
    ensures r.lastUpdated == now
  {
    var country := TextHeader(h, CountryHeader);
    var city := TextHeader(h, CityHeader);
    LocationData(
      country,
      city,
      TextHeader(h, RegionHeader),
      TextHeader(h, TimezoneHeader),
      TextHeader(h, ContinentHeader),
      CoordinateHeader(h, LatitudeHeader),
      CoordinateHeader(h, LongitudeHeader),
      Truthy(country) || Truthy(city),
      now)
  }

  /** Region, timezone and continent alone never mark a location detected. */
  lemma RegionAloneIsNotDetected(h: Headers, now: int)
    requires CountryHeader !in h || h[CountryHeader] == ""
    requires CityHeader !in h || h[CityHeader] == ""
    ensures !ExtractLocationFromHeaders(h, now).isDetected
  {
  }

  /** Without headers, extraction gives the default location. */
  lemma NoHeadersIsDefault(now: int)
    ensures ExtractLocationFromHeaders(map[], now) == DefaultLocation(now)
  {
  }

  /** `getLocationData`, with the request's headers as a parameter (`None`
      when they are unavailable): the default location stamped with `now`,
      or the extracted record. */
  function GetLocationData(headers: Option<Headers>, now: int): (r: LocationData)
    ensures headers.None? ==> r == DefaultLocation(now)
    ensures headers.Some? ==> r == ExtractLocationFromHeaders(headers.value, now)
    ensures r.lastUpdated == now
  {
    match headers
    case None => DefaultLocation(now)
    case Some(h) => ExtractLocationFromHeaders(h, now)
  }

  /** `isInCountry`: the record's country is present and equal to the code. */
  function IsInCountry(l: LocationData, countryCode: string): (r: bool)
    ensures r <==> l.country.Some? && l.country.value == countryCode
  {
    l.country == Some(countryCode)
  }

  /** `isInRegion`. */
  function IsInRegion(l: LocationData, regionCode: string): (r: bool)
    ensures r <==> l.region.Some? && l.region.value == regionCode
  {
    l.region == Some(regionCode)
  }

  /** `isInContinent`. */
  function IsInContinent(l: LocationData, continentCode: string): (r: bool)
    ensures r <==> l.continent.Some? && l.continent.value == continentCode
  {
    l.continent == Some(continentCode)
  }

  /** On the request's own location, the membership tests hold exactly when
      the header carries the code and the code is non-empty; without headers
      they never hold. */
  lemma MembershipFromHeaders(headers: Option<Headers>, now: int, code: string)
    ensures var l := GetLocationData(headers, now);
            (IsInCountry(l, code) <==>
               headers.Some? && code != "" && CountryHeader in headers.value &&
               headers.value[CountryHeader] == code) &&
            (IsInRegion(l, code) <==>
               headers.Some? && code != "" && RegionHeader in headers.value &&
               headers.value[RegionHeader] == code) &&
            (IsInContinent(l, code) <==>
               headers.Some? && code != "" && ContinentHeader in headers.value &&
               headers.value[ContinentHeader] == code)
  {
  }

  /** The empty code is never matched. */
  lemma EmptyCodeNeverMatches(headers: Option<Headers>, now: int)
    ensures !IsInCountry(GetLocationData(headers, now), "")
    ensures !IsInRegion(GetLocationData(headers, now), "")
    ensures !IsInContinent(GetLocationData(headers, now), "")
  {
  }

  /** The result of `getLiteLocationFromHeaders`. */
  datatype LiteLocation = LiteLocation(country: Option<string>, city: Option<string>, region: Option<string>)

  /** `getLiteLocationFromHeaders`: country, city and region only. */
  function GetLiteLocationFromHeaders(h: Headers): (r: LiteLocation)
    ensures var full := ExtractLocationFromHeaders(h, 0);
            r.country == full.country && r.city == full.city && r.region == full.region
  {
    LiteLocation(
      OrUndefined(Get(h, CountryHeader)),
      OrUndefined(Get(h, CityHeader)),
      OrUndefined(Get(h, RegionHeader)))
  }

  /** The lite record is the full record's first three fields, whatever the
      time. */
  lemma LiteAgreesWithFull(h: Headers, now: int)
    ensures var full := ExtractLocationFromHeaders(h, now);
            GetLiteLocationFromHeaders(h) == LiteLocation(full.country, full.city, full.region)
  {
  }

  /** The present fields among city, region and country, in that order. */
  function PresentParts(l: LocationData): (r: seq<string>)
    ensures |r| <= 3
    ensures forall i :: 0 <= i < |r| ==> r[i] != ""
    ensures r == [] <==> !Truthy(l.city) && !Truthy(l.region) && !Truthy(l.country)
  {
    (if Truthy(l.city) then [l.city.value] else []) +
    (if Truthy(l.region) then [l.region.value] else []) +
    (if Truthy(l.country) then [l.country.value] else [])
  }

  const UnknownLocation: string := "Unknown Location"

  /** The text `getFormattedLocation` produces for a record. It is
      `"Unknown Location"` exactly when no part is present or the only
      present part is that very text: two or more parts always leave a `,` in
      the result, which the fallback text lacks. A present city comes first. */
  function FormattedLocation(l: LocationData): (r: string)
    ensures r == UnknownLocation <==> PresentParts(l) == [] || PresentParts(l) == [UnknownLocation]
    ensures Truthy(l.city) ==> |l.city.value| <= |r| && r[..|l.city.value|] == l.city.value
  {
    if !Truthy(l.city) && !Truthy(l.region) && !Truthy(l.country) then UnknownLocation
    else
      var parts := PresentParts(l);
      assert |parts| >= 2 ==> Join(parts, ", ") != UnknownLocation by {
        if |parts| >= 2 {
          var s := Join(parts, ", ");
          assert s == parts[0] + ", " + Join(parts[1..], ", ");
          assert s[|parts[0]|] == ',';
          assert NoChar(UnknownLocation, ',');
        }
      }
      Join(parts, ", ")
  }

  /** `getFormattedLocation` on a given record: `"Unknown Location"` when no
      part is present, otherwise the present parts pushed in the order city,
      region, country and joined with `", "`. */
  method GetFormattedLocation(l: LocationData) returns (s: string)
    ensures s == FormattedLocation(l)
    ensures PresentParts(l) == [] ==> s == UnknownLocation
    ensures PresentParts(l) != [] ==> s == Join(PresentParts(l), ", ")
  {
    if !Truthy(l.city) && !Truthy(l.region) && !Truthy(l.country) {
      return UnknownLocation;
    }
    var parts: seq<string> := [];
    if Truthy(l.city) {
      parts := parts + [l.city.value];
    }
    assert parts == (if Truthy(l.city) then [l.city.value] else []);
    if Truthy(l.region) {
      parts := parts + [l.region.value];
    }
    if Truthy(l.country) {
      parts := parts + [l.country.value];
    }
    assert parts == PresentParts(l);
    s := Join(parts, ", ");
  }

  /** A city, region and country give `"city, region, country"`. */
  lemma FormattedLocationFull(l: LocationData)
    requires Truthy(l.city) && Truthy(l.region) && Truthy(l.country)
    ensures FormattedLocation(l) == l.city.value + ", " + l.region.value + ", " + l.country.value
  {
    var parts := PresentParts(l);
    assert parts == [l.city.value, l.region.value, l.country.value];
    assert parts[1..] == [l.region.value, l.country.value];
    assert parts[1..][1..] == [l.country.value];
    assert Join(parts[1..], ", ") == l.region.value + ", " + l.country.value;
  }
}
