/**
 * The router-independent location helpers
 * (lib/location/shared-location-utils.ts): slug normalisation, a second,
 * looser validator, display formatting, the location info record and the
 * AMP page address.
 */
module SharedLocationUtils {
  import opened Wrappers
  import opened JsString
  import opened Slugs
  import opened LocationUtils

  /** `LOCATION_REGIONS`. */
  const LocationRegions: map<string, RegionData> := map[
    "new-york" := RegionData("US", "NY"),
    "lewis-center" := RegionData("US", "OH"),
    "los-angeles" := RegionData("US", "CA"),
    "chicago" := RegionData("US", "IL"),
    "san-francisco" := RegionData("US", "CA"),
    "miami" := RegionData("US", "FL"),
    "seattle" := RegionData("US", "WA"),
    "austin" := RegionData("US", "TX"),
    "boston" := RegionData("US", "MA"),
    "denver" := RegionData("US", "CO"),
    "atlanta" := RegionData("US", "GA")
  ]

  /** Every region of `LOCATION_REGIONS` is in the US. */
  lemma LocationRegionsInUs()
    ensures forall k :: k in LocationRegions ==> LocationRegions[k].country == "US"
  {
  }

  /** The region table here and the one inside `getLocationInfo` agree. */
  lemma LocationRegionsArePredefinedDetails()
    ensures LocationRegions == PredefinedDetails
  {
  }

  /** The site address used when `NEXT_PUBLIC_SITE_URL` is unset or empty. */
  const DefaultSiteUrl: string := "https://cyber-hand.com"

  /** `formatLocationName` of this file: the same text as the formatter in
      the other location module, so `""` stays `""`, no `-` survives, and a
      slug without spaces gives one word per piece. */
  function FormatLocationName(slug: string): (r: string)
    ensures r == LocationUtils.FormatLocationName(slug)
    ensures slug == "" ==> r == ""
    ensures NoChar(r, '-')
    ensures NoChar(slug, ' ') ==> |SplitOn(r, " ")| == |SplitOn(slug, "-")|
  {
    if slug == "" then "" else TitleCase(slug)
  }

  /** `normalizeLocationSlug`: `""` for `""`, otherwise lower-case, each run of
      whitespace to one `-`, and every character outside `[a-z0-9-]` dropped. */
  function NormalizeLocationSlug(location: string): (r: string)
    ensures location == "" ==> r == ""
    ensures IsSlugText(r)
    ensures IsSlugText(location) ==> r == location
    ensures r == LocationUtils.GetLocationInfo(location).normalizedSlug
  {
    if location == "" then "" else Slugify(location)
  }

  /** Normalising twice is normalising once. */
  lemma NormalizeLocationSlugIdempotent(location: string)
    ensures NormalizeLocationSlug(NormalizeLocationSlug(location)) == NormalizeLocationSlug(location)
  {
    SlugifyIdempotent(location);
  }

  /** `isValidLocationSlug`: `false` for `""`; otherwise the normalised text
      must be predefined or have at least three characters and match
      `^[a-z0-9][a-z0-9-]*[a-z0-9]$`. Unlike `validateLocation` there is no
      test for `--`. Because every predefined location passes the pattern,
      the table adds nothing. */
  function IsValidLocationSlug(location: string): (r: bool)
    ensures location == "" ==> !r
    ensures location != "" && NormalizeLocationSlug(location) in ValidLocations ==> r
    ensures r <==> |NormalizeLocationSlug(location)| >= 3 &&
                   MatchesSlugPattern(NormalizeLocationSlug(location))
  {
    ValidLocationsWellFormed();
    if location == "" then false
    else
      var normalizedSlug := NormalizeLocationSlug(location);
      normalizedSlug in ValidLocations ||
      (|normalizedSlug| >= 3 && MatchesSlugPattern(normalizedSlug))
  }

  /** Slug text is its own lower-case form and has no whitespace, so the
      pipeline leaves it unchanged. */
  lemma LowerSlugTextNormalizes(s: string)
    requires IsSlugText(Lower(s))
    ensures Slugify(s) == Lower(s)
  {
    var l := Lower(s);
    assert NoWhitespace(l) by {
      forall i | 0 <= i < |l| ensures !IsJsWhitespace(l[i]) {
        assert IsSlugChar(l[i]);
      }
    }
    CollapseWhitespaceFixed(l);
    StripNonSlugFixed(l);
  }

  /** Whatever `validateLocation` accepts, `isValidLocationSlug` accepts. */
  lemma ValidateImpliesIsValidLocationSlug(s: string)
    requires ValidateLocation(s)
    ensures IsValidLocationSlug(s)
  {
    LowerSlugTextNormalizes(s);
  }

  /** The converse fails: `"a--b"` passes the looser validator only. */
  lemma DoubleHyphenGap()
    ensures IsValidLocationSlug("a--b")
    ensures !ValidateLocation("a--b")
  {
    assert IsSlugText("a--b");
    assert Lower("a--b") == "a--b";
    assert OccursAt("a--b", "--", 1);
    IncludesIff("a--b", "--");
  }

  /** `getSharedLocationInfo`: the empty slug gives the invalid empty record.
      Otherwise the slug is normalised and validated, the display name is the
      formatted slug (the `CITY_NAME_MAP` branch never applies to the map's
      own keys, because they are capitalised and a normalised slug is
      lower-case; keys inherited from the object prototype are not
      modelled), and the country and region come from `LOCATION_REGIONS` or
      are `US` and `""`, whether or not the slug is valid. */
  function GetSharedLocationInfo(locationSlug: string): (r: LocationInfo)
    ensures locationSlug == "" ==> r == EmptyInfo
    ensures locationSlug != "" ==>
              r.originalSlug == locationSlug &&
              r.normalizedSlug == NormalizeLocationSlug(locationSlug) &&
              r.isValid == IsValidLocationSlug(locationSlug) &&
              r.displayName == FormatLocationName(r.normalizedSlug) &&
              r.country == Some("US") &&
              r.region == Some(if r.normalizedSlug in LocationRegions
                               then LocationRegions[r.normalizedSlug].region else "")
  {
    if locationSlug == "" then EmptyInfo
    else
      var normalizedSlug := NormalizeLocationSlug(locationSlug);
      NormalizeLocationSlugIdempotent(locationSlug);
      var isValid := IsValidLocationSlug(normalizedSlug);
      var displayName :=
        if normalizedSlug in CityNameMap && CityNameMap[normalizedSlug] != ""
        then CityNameMap[normalizedSlug]
        else FormatLocationName(normalizedSlug);
      SlugTextIsNoCityName(normalizedSlug);
      LocationRegionsInUs();
      var regionData :=
        if normalizedSlug in LocationRegions then LocationRegions[normalizedSlug]
        else DefaultRegion;
      LocationInfo(isValid, displayName, locationSlug, normalizedSlug,
                   Some(regionData.country), Some(regionData.region))
  }

  /** The two info builders agree on everything but country and region, which
      `getLocationInfo` leaves out for an invalid slug; on a slug that both
      validators accept, they agree completely. */
  lemma SharedInfoAgreesWithLocationInfo(locationSlug: string)
    ensures var a := GetSharedLocationInfo(locationSlug);
            var b := LocationUtils.GetLocationInfo(locationSlug);
            a.displayName == b.displayName && a.originalSlug == b.originalSlug &&
            a.normalizedSlug == b.normalizedSlug
    ensures LocationUtils.GetLocationInfo(locationSlug).isValid ==>
              GetSharedLocationInfo(locationSlug) == LocationUtils.GetLocationInfo(locationSlug)
  {
    var b := LocationUtils.GetLocationInfo(locationSlug);
    if b.isValid {
      ValidateImpliesIsValidLocationSlug(b.normalizedSlug);
      LocationRegionsArePredefinedDetails();
    }
  }

  /** `getAmpLocationUrl`, with the environment variable as a parameter: the
      site address (or the default), `/services/`, the normalised slug and
      `?amp=1`. The slug can be read back from the address. */
  function GetAmpLocationUrl(siteUrlSetting: Option<string>, location: string): (r: string)
    ensures var site := if Truthy(siteUrlSetting) then siteUrlSetting.value else DefaultSiteUrl;
            r == site + "/services/" + NormalizeLocationSlug(location) + "?amp=1" &&
            |site| + 10 <= |r| - 6 &&
            r[|site| + 10..|r| - 6] == NormalizeLocationSlug(location)
  {
    var siteUrl := if Truthy(siteUrlSetting) then siteUrlSetting.value else DefaultSiteUrl;
    siteUrl + "/services/" + NormalizeLocationSlug(location) + "?amp=1"
  }
}
