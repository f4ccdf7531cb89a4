/**
 * Location validation, display formatting, slug generation and the
 * per-location service list (lib/location/location-utils.ts).
 * `React.cache` and the `async` wrappers add nothing to the logic and are
 * not modelled: every operation is a plain function of its arguments.
 */
module LocationUtils {
  import opened Wrappers
  import opened JsString
  import opened Slugs
  import Utils

  /** `VALID_LOCATIONS`. */
  const ValidLocations: seq<string> := [
    "new-york", "lewis-center", "los-angeles", "chicago", "san-francisco",
    "miami", "seattle", "austin", "boston", "denver", "atlanta"
  ]

  /** `CITY_NAME_MAP`: display names to their slugs. */
  const CityNameMap: map<string, string> := map[
    "New York" := "new-york",
    "Lewis Center" := "lewis-center",
    "Los Angeles" := "los-angeles",
    "Chicago" := "chicago",
    "San Francisco" := "san-francisco",
    "Miami" := "miami",
    "Seattle" := "seattle",
    "Austin" := "austin",
    "Boston" := "boston",
    "Denver" := "denver",
    "Atlanta" := "atlanta"
  ]

  /** A country and region pair, as in the predefined region tables. */
  datatype RegionData = RegionData(country: string, region: string)

  /** The `predefinedDetails` table of `getLocationInfo`. */
  const PredefinedDetails: map<string, RegionData> := map[
    "new-york" := RegionData("US", "NY"),
    "lewis-center" := RegionData("US", "OH"),
    "los-angeles" := RegionData("US", "CA"),
    "chicago" := RegionData("US", "IL"),
    "san-francisco" := RegionData("US", "CA"),
    "miami" := RegionData("US", "FL"),
    "seattle" := RegionData("US", "WA"),
    "austin" := RegionData("US", "TX"),
    "boston" := RegionData("US", "MA"),
    "denver" := RegionData("US", "CO"),
    "atlanta" := RegionData("US", "GA")
  ]

  /** The region data given to a valid location missing from the table. */
  const DefaultRegion: RegionData := RegionData("US", "")

  /** `predefinedDetails[slug] || { country: "US", region: "" }`: every
      country is `US`. */
  function RegionOf(slug: string): (r: RegionData)
    ensures slug in PredefinedDetails ==> r == PredefinedDetails[slug]
    ensures slug !in PredefinedDetails ==> r == DefaultRegion
    ensures r.country == "US"
  {
    if slug in PredefinedDetails then PredefinedDetails[slug] else DefaultRegion
  }

  /** The regular expression `^[a-z0-9][a-z0-9-]*[a-z0-9]$`. */
  predicate MatchesSlugPattern(s: string) {
    |s| >= 2 && IsAlnum(s[0]) && IsAlnum(s[|s| - 1]) && IsSlugText(s)
  }

  /** The format test of `validateLocation`: at least three characters, the
      pattern above, and no `--`. */
  predicate WellFormedSlug(s: string) {
    |s| >= 3 && MatchesSlugPattern(s) && !Includes(s, "--")
  }

  /** Every predefined location passes the format test on its own. */
  lemma ValidLocationsWellFormed()
    ensures forall i :: 0 <= i < |ValidLocations| ==> WellFormedSlug(ValidLocations[i])
  {
    forall i | 0 <= i < |ValidLocations| ensures WellFormedSlug(ValidLocations[i]) {
      var s := ValidLocations[i];
      assert IsSlugText(s) && IsAlnum(s[0]) && IsAlnum(s[|s| - 1]);
      NoDoubledChar(s, '-');
    }
  }

  /** `validateLocation`: the empty string is invalid; a lower-cased name in
      `VALID_LOCATIONS` is valid; anything else is valid exactly when its
      lower-cased form passes the format test. Since every table entry passes
      that test too, validity is the format test alone. */
  function ValidateLocation(location: string): (r: bool)
    ensures location == "" ==> !r
    ensures location != "" && Lower(location) in ValidLocations ==> r
    ensures r <==> WellFormedSlug(Lower(location))
  {
    ValidLocationsWellFormed();
    if location == "" then false
    else
      var normalized := Lower(location);
      if normalized in ValidLocations then true
      else WellFormedSlug(normalized)
  }

  /** `formatLocationName`: `""` for the empty slug, otherwise the pieces
      between `-` capitalised and joined with spaces. The empty-input guard
      changes nothing: this is the service-name formatter on every input. */
  function FormatLocationName(locationSlug: string): (r: string)
    ensures locationSlug == "" ==> r == ""
    ensures r == Utils.FormatServiceName(locationSlug)
    ensures NoChar(r, '-')
    ensures NoChar(locationSlug, ' ') ==>
              |SplitOn(r, " ")| == |SplitOn(locationSlug, "-")| &&
              SplitOn(r, " ") == CapitalizeAll(SplitOn(locationSlug, "-"))
  {
    assert SplitOn("", "-") == [""];
    if locationSlug == "" then "" else Utils.FormatServiceName(locationSlug)
  }

  /** Round trip: a well-formed slug, formatted for display and slugged
      again, is the slug itself. */
  lemma FormatLocationNameRoundTrip(slug: string)
    requires IsSlugText(slug) && !Includes(slug, "--")
    ensures Slugify(FormatLocationName(slug)) == slug
  {
    SlugifyTitleCase(slug);
  }

  /** `"new-york"` is shown as `"New York"`. */
  lemma FormatLocationNameNewYork()
    ensures FormatLocationName("new-york") == "New York"
  {
    NewYorkPieces();
    TitleCaseOfPieces(["new", "york"]);
  }

  /** The pieces of `"new-york"` and their capitalised join. */
  lemma NewYorkPieces()
    ensures Join(["new", "york"], "-") == "new-york"
    ensures NoChar("new", '-') && NoChar("york", '-')
    ensures Join(CapitalizeAll(["new", "york"]), " ") == "New York"
  {
    assert Capitalize("new") == "New";
    assert Capitalize("york") == "York";
    assert CapitalizeAll(["new", "york"]) == ["New", "York"];
    assert Join(["New", "York"], " ") == "New York";
  }

  /** Every key of `CITY_NAME_MAP` starts with a capital letter, so no slug
      text is a key. */
  lemma CityNameMapKeysCapitalised()
    ensures forall k :: k in CityNameMap ==> k != "" && IsAsciiUpper(k[0])
  {
  }

  /** Hence slug text is never a key of `CITY_NAME_MAP`. */
  lemma SlugTextIsNoCityName(s: string)
    requires IsSlugText(s)
    ensures s !in CityNameMap
  {
    CityNameMapKeysCapitalised();
    if s != "" {
      assert IsSlugChar(s[0]);
    }
  }

  /** Every value of `CITY_NAME_MAP` is one of `VALID_LOCATIONS`. */
  lemma CityNameMapTargetsValid()
    ensures forall k :: k in CityNameMap ==> CityNameMap[k] in ValidLocations
  {
  }

  /** `generateLocationSlug`: `""` for the empty name, the table entry for a
      name in `CITY_NAME_MAP`, otherwise the slug pipeline. The result is
      always slug text, and slug text is returned unchanged. */
  function GenerateLocationSlug(cityName: string): (r: string)
    ensures cityName == "" ==> r == ""
    ensures cityName in CityNameMap ==> r == CityNameMap[cityName] && r in ValidLocations
    ensures cityName !in CityNameMap ==> r == Slugify(cityName)
    ensures IsSlugText(r)
    ensures IsSlugText(cityName) ==> r == cityName
  {
    CityNameMapTargetsValid();
    ValidLocationsWellFormed();
    CityNameMapKeysCapitalised();
    if cityName == "" then ""
    else if cityName in CityNameMap && CityNameMap[cityName] != "" then CityNameMap[cityName]
    else Slugify(cityName)
  }

  /** Generating a slug from a generated slug changes nothing. */
  lemma GenerateLocationSlugIdempotent(cityName: string)
    ensures GenerateLocationSlug(GenerateLocationSlug(cityName)) == GenerateLocationSlug(cityName)
  {
  }

  /** `"New York"` gives `"new-york"`. */
  lemma GenerateLocationSlugNewYork()
    ensures GenerateLocationSlug("New York") == "new-york"
  {
  }

  /** The record `getLocationInfo` returns; `country` and `region` are the
      optional members, absent when `None`. */
  datatype LocationInfo = LocationInfo(
    isValid: bool,
    displayName: string,
    originalSlug: string,
    normalizedSlug: string,
    country: Option<string>,
    region: Option<string>)

  const EmptyInfo: LocationInfo := LocationInfo(false, "", "", "", None, None)

  /** `getLocationInfo`: normalises the slug, validates it, and formats the
      display name on both paths; only a valid slug carries country and region,
      from the predefined table or `US` with an empty region. Every predefined
      country is `US`. */
  function GetLocationInfo(locationSlug: string): (r: LocationInfo)
    ensures locationSlug == "" ==> r == EmptyInfo
    ensures locationSlug != "" ==>
              r.originalSlug == locationSlug && r.normalizedSlug == Slugify(locationSlug) &&
              r.displayName == FormatLocationName(r.normalizedSlug)
    ensures IsSlugText(r.normalizedSlug)
    ensures r.isValid <==> locationSlug != "" && WellFormedSlug(Slugify(locationSlug))
    ensures !r.isValid ==> r.country.None? && r.region.None?
    ensures r.isValid ==>
              r.country == Some("US") && r.region == Some(RegionOf(r.normalizedSlug).region)
  {
    if locationSlug == "" then EmptyInfo
    else
      var normalizedSlug := Slugify(locationSlug);
      assert Lower(normalizedSlug) == normalizedSlug;
      var isValid := ValidateLocation(normalizedSlug);
      if !isValid then
        LocationInfo(false, FormatLocationName(normalizedSlug), locationSlug, normalizedSlug, None, None)
      else
        var details := RegionOf(normalizedSlug);
        LocationInfo(isValid, FormatLocationName(normalizedSlug), locationSlug, normalizedSlug,
                     Some(details.country), Some(details.region))
  }

  /** One entry of the service list: `{ id, name, isAvailable }`. */
  datatype ServiceOffer = ServiceOffer(id: string, name: string, isAvailable: bool)

  /** The record `getServicesForLocation` returns. */
  datatype LocationServices = LocationServices(
    location: string,
    services: seq<ServiceOffer>,
    specialties: seq<string>)

  /** The locations where `"Tech Consulting"` is offered. */
  const ConsultingLocations: seq<string> := ["new-york", "san-francisco", "chicago"]

  /** The specialties chosen by strict equality on the raw argument. */
  function Specialties(location: string): seq<string> {
    if location == "new-york" then ["Fintech", "Media"]
    else if location == "san-francisco" then ["Startups", "Tech"]
    else if location == "miami" then ["Hospitality", "Real Estate"]
    else ["General Business"]
  }

  /** `getServicesForLocation`: three available services and the general
      specialty for an invalid location; for a valid one four services, where
      marketing is unavailable exactly for the raw text `"denver"` and
      consulting is available exactly for the three consulting cities. All
      comparisons here use the argument as given, not lower-cased. */
  function GetServicesForLocation(location: string): (r: LocationServices)
    ensures r.location == FormatLocationName(location)
    ensures !ValidateLocation(location) ==>
              |r.services| == 3 && r.specialties == ["General Business"] &&
              (forall i :: 0 <= i < 3 ==> r.services[i].isAvailable)
    ensures ValidateLocation(location) ==>
              |r.services| == 4 &&
              r.services[0].isAvailable && r.services[1].isAvailable &&
              (r.services[2].isAvailable <==> location != "denver") &&
              (r.services[3].isAvailable <==> location in ConsultingLocations) &&
              r.specialties == Specialties(location)
    ensures |r.services| >= 3 &&
            r.services[0].id == "web-dev" && r.services[1].id == "design" &&
            r.services[2].id == "marketing" &&
            r.services[0].name == "Web Development" &&
            r.services[1].name == "UI/UX Design" &&
            r.services[2].name == "Digital Marketing"
    ensures |r.services| == 4 ==> r.services[3].id == "consulting" && r.services[3].name == "Tech Consulting"
  {
    var formatted := FormatLocationName(location);
    var webDev := ServiceOffer("web-dev", "Web Development", true);
    var design := ServiceOffer("design", "UI/UX Design", true);
    if !ValidateLocation(location) then
      LocationServices(
        formatted,
        [ webDev, design, ServiceOffer("marketing", "Digital Marketing", true) ],
        ["General Business"])
    else
      LocationServices(
        formatted,
        [ webDev, design,
          ServiceOffer("marketing", "Digital Marketing", location != "denver"),
          ServiceOffer("consulting", "Tech Consulting", location in ConsultingLocations) ],
        Specialties(location))
  }

  /** `"Denver"` is a valid location (it is lower-cased for validation) but is
      not the raw text `"denver"`, so marketing stays available there. */
  lemma DenverCapitalisedKeepsMarketing()
    ensures ValidateLocation("Denver")
    ensures GetServicesForLocation("Denver").services[2].isAvailable
    ensures !GetServicesForLocation("denver").services[2].isAvailable
  {
    assert Lower("Denver") == "denver";
    assert ValidLocations[9] == "denver";
    assert Lower("denver") == "denver";
  }
}
