# Location and service logic of the template website

This project models the logic behind a small Next.js service-business site
(CyberHandLLC/template-website) in Dafny, and proves properties of it.

The site serves one page per service and per location. Behind those pages
sits a layer of deterministic string and table routines:

- **Location slugs.** Building `city-region` slugs, normalising free text to
  `[a-z0-9-]`, two location validators, and formatting a slug as a display
  name.
- **Request location.** Turning the geolocation request headers into a
  location record, with membership tests and a one-line description.
- **Location override store.** A client-side store that lets the visitor
  override the detected location and persists the override.
- **Service catalog.** Lookups in the catalog, and the `%location%` and
  `%s` template substitutions.
- **Location content.** Per-location page content: predefined for a few
  cities, generated from the display name otherwise.

One module per source file:

| module | source file | form |
|---|---|---|
| `Utils` | lib/utils.ts | functions |
| `LocationUtils` | lib/location/location-utils.ts | functions over constant tables |
| `SharedLocationUtils` | lib/location/shared-location-utils.ts | functions over constant tables |
| `LocationService` | lib/location/location-service.ts | functions; a method for the formatter that builds its list by `push` |
| `LocationContext` | lib/location/location-context.tsx | a class `LocationProvider` whose fields are the provider's state and its local storage |
| `ServicesData` | lib/services/services-data.ts | a constant list and lookups |
| `ServiceUtils` | lib/services/service-utils.ts | lookups over the catalog, passed as a parameter |
| `Config` | lib/config/index.ts | lookups and template substitution |
| `LocationDataService` | lib/location/location-data-service.ts | constant tables and generators |

Four supporting modules model the JavaScript built-ins these files use:

- `Wrappers` holds `Option`.
- `JsString` models `toLowerCase`, `\s`, `indexOf`, `includes`,
  `split`/`join`, and `String.prototype.replace`. The replace model includes
  the `$` patterns of the replacement string, as the GetSubstitution
  operation of the ECMAScript language specification defines them.
- `JsArray` models `find`, `some`, and a stable `sort` by a numeric key.
- `Slugs` holds the `toLowerCase` / `replace(/\s+/g, "-")` /
  `replace(/[^a-z0-9-]/g, "")` pipeline that two files repeat in three
  places (lib/location/location-utils.ts:97-100 and :141-144,
  lib/location/shared-location-utils.ts:58-61), and the split, capitalise
  and join display formatter.

Behaviours the model pins down:

- `formatServiceName("ac-install")` is `"Ac Install"`, although its
  documentation shows `"AC Install"`. Only the first letter of each piece is
  upper-cased (`Utils.FormatServiceNameAcInstall`).
- `createLocationSlug` uses the fallback unless both city and region are
  non-empty. Whitespace in the region is kept: the code only lower-cases the
  region and turns whitespace into `-` in the city alone. Its documentation
  (lib/utils.ts:16) promises only a "URL-friendly location slug"
  (`Utils.CreateLocationSlugKeepsRegionSpace`).
- `isValidLocationSlug` has no `--` test. Everything `validateLocation`
  accepts, it accepts too, but not the converse (`"a--b"`).
- The `CITY_NAME_MAP[normalizedSlug]` branch of `getSharedLocationInfo`
  never applies to the map's own keys (see Left out). Those keys are
  capitalised and a normalised slug is lower-case.
- `formatWithLocation(text, location)` treats `location` as a replacement
  string. With a `$`-free location it is split-then-join at the
  placeholders. With the location `"$&"` it leaves every text unchanged.
- `getServicesForLocation` validates the lower-cased location but compares
  the raw argument with `"denver"` and the consulting cities. So `"Denver"`
  keeps marketing available.

## Model

| member | source | states |
|---|---|---|
| `Utils.CreateLocationSlug` | lib/utils.ts:18-24 | with a truthy city and region: the lower-cased city with each whitespace run turned into `-`, then `-`, then the lower-cased region; otherwise exactly `fallback` |
| `Utils.CreateLocationSlugFallback` | lib/utils.ts:18-23 | a missing or empty city or region gives the default fallback `"your-area"` |
| `Utils.CreateLocationSlugCityPart` | lib/utils.ts:19-21 | the slug is a whitespace-free city part, `-`, and the lower-cased region; the whole slug is whitespace-free when the region is |
| `Utils.CreateLocationSlugKeepsRegionSpace` | lib/utils.ts:21 | a whitespace character of the region appears in the slug at a known position, so the slug holds whitespace |
| `Utils.FormatServiceName` | lib/utils.ts:31-35 | the result has no `-`; for a slug without spaces, its space-separated words are exactly the pieces between `-`, each capitalised |
| `Utils.FormatServiceNameAcInstall` | lib/utils.ts:27-35 | `"ac-install"` gives `"Ac Install"`, not `"AC Install"` |
| `Slugs.CollapseWhitespace` | lib/location/location-utils.ts:143 | `replace(/\s+/g, "-")` leaves no whitespace character |
| `Slugs.CollapseWhitespaceFixed` | lib/location/location-utils.ts:143 | text without whitespace is unchanged by it |
| `Slugs.SkipWhitespaceRun` | lib/location/location-utils.ts:143 | the `+` of `\s+` takes a whole run of whitespace, up to the first character that is not whitespace |
| `Slugs.CollapseWhitespaceHeadRun` | lib/location/location-utils.ts:143 | a non-empty run of whitespace at the head becomes exactly one `-`, and the rest is replaced in turn |
| `Slugs.CollapseWhitespaceRun` | lib/location/location-utils.ts:143 | a whitespace-free prefix is kept as it is, the maximal whitespace run after it becomes exactly one `-`, and the rest is replaced in turn |
| `Slugs.CollapseWhitespaceDoubleSpace` | lib/location/location-utils.ts:143 | `"new  york"` (two spaces) becomes `"new-york"`, not `"new--york"` |
| `Slugs.StripNonSlug` | lib/location/location-utils.ts:144 | `replace(/[^a-z0-9-]/g, "")` leaves only `[a-z0-9-]` and never lengthens the text |
| `Slugs.StripNonSlugFixed` | lib/location/location-utils.ts:144 | text made of `[a-z0-9-]` is unchanged by it |
| `Slugs.Slugify` | lib/location/location-utils.ts:141-144 | the whole pipeline yields only `[a-z0-9-]` and returns slug text unchanged |
| `Slugs.SlugifyIdempotent` | lib/location/shared-location-utils.ts:58-61 | applying the pipeline twice is applying it once |
| `Slugs.Capitalize` | lib/utils.ts:33 | the word keeps its length; its first character is upper-cased and every later one is kept |
| `Slugs.TitleCase` | lib/location/location-utils.ts:78-81 | split on `-`, capitalise, join with spaces: no `-` remains |
| `Slugs.TitleCaseWords` | lib/location/shared-location-utils.ts:45-48 | without spaces in the input there is one output word per `-` piece, and each word is that piece capitalised |
| `Slugs.TitleCaseOfPieces` | lib/utils.ts:32-34 | title-casing `-`-joined pieces without `-` joins the capitalised pieces with spaces |
| `Slugs.SlugifyTitleCase` | lib/location/location-utils.ts:75-100 | round trip: slug text without `--`, formatted for display and slugged again, is the original slug |
| `Slugs.CollapseJoin` | lib/location/location-utils.ts:143 | alphanumeric words joined by single spaces become the same words joined by `-` |
| `Slugs.LowerJoinCapitalized` | lib/location/location-utils.ts:142 | lower-casing the capitalised, space-joined alphanumeric words gives the words back |
| `Slugs.EmptyInnerPieceMeansDoubleHyphen` | lib/location/location-utils.ts:67 | an empty inner piece of a split on `-` means the text includes `--` |
| `LocationUtils.RegionOf` | lib/location/location-utils.ts:166-190 | the predefined country and region of a slug in the table, otherwise `US` with an empty region; the country is always `US` |
| `LocationUtils.ValidLocationsWellFormed` | lib/location/location-utils.ts:10-23 | every entry of `VALID_LOCATIONS` passes the format test on its own |
| `LocationUtils.ValidateLocation` | lib/location/location-utils.ts:48-69 | `""` is invalid; a lower-cased name in `VALID_LOCATIONS` is valid; validity holds iff the lower-cased text has length at least 3, matches `^[a-z0-9][a-z0-9-]*[a-z0-9]$` and has no `--` |
| `LocationUtils.FormatLocationName` | lib/location/location-utils.ts:75-82 | `""` gives `""`; the result is the service-name formatter's, has no `-`, and has one capitalised word per `-` piece when the slug has no spaces |
| `LocationUtils.FormatLocationNameRoundTrip` | lib/location/location-utils.ts:75-100 | slugging the display name of a slug without `--` gives the slug back |
| `LocationUtils.FormatLocationNameNewYork` | lib/location/location-utils.ts:71-82 | `"new-york"` is shown as `"New York"` |
| `LocationUtils.CityNameMapKeysCapitalised` | lib/location/location-utils.ts:26-38 | every key of `CITY_NAME_MAP` starts with an upper-case letter |
| `LocationUtils.SlugTextIsNoCityName` | lib/location/location-utils.ts:26-38 | no slug text is a key of `CITY_NAME_MAP` |
| `LocationUtils.CityNameMapTargetsValid` | lib/location/location-utils.ts:26-38 | every value of `CITY_NAME_MAP` is one of `VALID_LOCATIONS` |
| `LocationUtils.GenerateLocationSlug` | lib/location/location-utils.ts:88-101 | `""` gives `""`; a map key gives its entry, a valid location; any other name goes through the pipeline; the result is always slug text, and slug text is returned unchanged |
| `LocationUtils.GenerateLocationSlugIdempotent` | lib/location/location-utils.ts:92-100 | generating a slug from a generated slug changes nothing |
| `LocationUtils.GenerateLocationSlugNewYork` | lib/location/location-utils.ts:84-94 | `"New York"` gives `"new-york"` |
| `LocationUtils.GetLocationInfo` | lib/location/location-utils.ts:130-199 | `""` gives the empty invalid record; otherwise the original slug as given, the normalised slug, and its display name on both paths; valid iff the normalised slug passes `validateLocation`; an invalid record has no country or region; a valid one has `US` and the table's region or `""` |
| `LocationUtils.GetServicesForLocation` | lib/location/location-utils.ts:205-245 | an invalid location gets three available services and `["General Business"]`; a valid one gets four, marketing unavailable iff the text is `"denver"`, consulting available iff it is one of the three consulting cities, and the specialties chosen by the raw text; in both cases the first three are `web-dev` "Web Development", `design` "UI/UX Design" and `marketing` "Digital Marketing", and a fourth is `consulting` "Tech Consulting" |
| `LocationUtils.DenverCapitalisedKeepsMarketing` | lib/location/location-utils.ts:207-229 | `"Denver"` is valid and keeps marketing, while `"denver"` loses it |
| `SharedLocationUtils.LocationRegionsArePredefinedDetails` | lib/location/shared-location-utils.ts:24-36 | `LOCATION_REGIONS` equals the predefined table of `getLocationInfo` |
| `SharedLocationUtils.FormatLocationName` | lib/location/shared-location-utils.ts:42-49 | the same text as the other module's formatter: `""` for `""`, no `-`, one word per `-` piece without spaces |
| `SharedLocationUtils.NormalizeLocationSlug` | lib/location/shared-location-utils.ts:55-62 | `""` for `""`; only `[a-z0-9-]`; slug text unchanged; equal to the normalised slug of `getLocationInfo` |
| `SharedLocationUtils.NormalizeLocationSlugIdempotent` | lib/location/shared-location-utils.ts:58-61 | normalising twice is normalising once |
| `SharedLocationUtils.IsValidLocationSlug` | lib/location/shared-location-utils.ts:68-77 | `""` is invalid; a normalised text in `VALID_LOCATIONS` is valid; validity holds iff the normalised text has length at least 3 and matches the pattern, so the table adds nothing |
| `SharedLocationUtils.LowerSlugTextNormalizes` | lib/location/shared-location-utils.ts:58-61 | text whose lower-case form is slug text normalises to that form |
| `SharedLocationUtils.ValidateImpliesIsValidLocationSlug` | lib/location/shared-location-utils.ts:68-77 | whatever `validateLocation` accepts, `isValidLocationSlug` accepts |
| `SharedLocationUtils.DoubleHyphenGap` | lib/location/shared-location-utils.ts:73-76 | `"a--b"` passes `isValidLocationSlug` but not `validateLocation` |
| `SharedLocationUtils.GetSharedLocationInfo` | lib/location/shared-location-utils.ts:82-119 | `""` gives the empty invalid record; otherwise the original and normalised slugs, validity by `isValidLocationSlug`, the formatted display name, and country `US` with the table's region or `""`, valid or not |
| `SharedLocationUtils.SharedInfoAgreesWithLocationInfo` | lib/location/shared-location-utils.ts:82-119 | both info builders give the same names and slugs; on a slug `getLocationInfo` finds valid they give the same record |
| `SharedLocationUtils.GetAmpLocationUrl` | lib/location/shared-location-utils.ts:124-127 | the site address (or the default), `/services/`, the normalised slug and `?amp=1`; the slug can be read back from the address |
| `LocationService.Get` | lib/location/location-service.ts:23 | `headers.get` is present iff the header is, with its value |
| `LocationService.OrUndefined` | lib/location/location-service.ts:23-27 | `value or undefined` is present iff the value is non-empty |
| `LocationService.TextHeader` | lib/location/location-service.ts:23-27 | a text field is the header's value when present and non-empty, absent otherwise |
| `LocationService.CoordinateHeader` | lib/location/location-service.ts:30-33 | a coordinate is present iff its header is present and non-empty |
| `LocationService.ExtractLocationFromHeaders` | lib/location/location-service.ts:20-45 | each field read on its own from its header; `isDetected` iff country or city is present; stamped with the time |
| `LocationService.RegionAloneIsNotDetected` | lib/location/location-service.ts:43 | without a country and a city the record is not detected, whatever else is present |
| `LocationService.NoHeadersIsDefault` | lib/location/location-service.ts:12-15 | with no headers, extraction gives the default location |
| `LocationService.GetLocationData` | lib/location/location-service.ts:58-73 | unavailable headers give the default location, otherwise the extracted record; stamped with the time |
| `LocationService.IsInCountry` | lib/location/location-service.ts:78-85 | true iff the country is present and equal to the code |
| `LocationService.IsInRegion` | lib/location/location-service.ts:90-97 | true iff the region is present and equal to the code |
| `LocationService.IsInContinent` | lib/location/location-service.ts:102-109 | true iff the continent is present and equal to the code |
| `LocationService.MembershipFromHeaders` | lib/location/location-service.ts:78-109 | on the request's location, each membership test holds iff the header carries the code and the code is non-empty |
| `LocationService.EmptyCodeNeverMatches` | lib/location/location-service.ts:80-105 | the empty code never matches |
| `LocationService.GetLiteLocationFromHeaders` | lib/location/location-service.ts:138-153 | country, city and region equal the full extraction's |
| `LocationService.LiteAgreesWithFull` | lib/location/location-service.ts:144-148 | the lite record is the full record's first three fields at any time |
| `LocationService.PresentParts` | lib/location/location-service.ts:123-126 | at most three non-empty parts, empty iff city, region and country are all absent |
| `LocationService.GetFormattedLocation` | lib/location/location-service.ts:115-132 | `"Unknown Location"` when no part is present, otherwise the present parts in the order city, region, country joined with `", "` |
| `LocationService.FormattedLocation` | lib/location/location-service.ts:119-128 | the text is `"Unknown Location"` iff no part is present or the only part is that very text; a present city comes first |
| `LocationService.FormattedLocationFull` | lib/location/location-service.ts:112-128 | all three parts give `"city, region, country"` |
| `LocationContext.DefaultLocation` | lib/location/location-context.tsx:40-43 | not detected, no geographic field, stamped with the time |
| `LocationContext.Spread` | lib/location/location-context.tsx:104-106 | a spread field takes the patch's value when its key is present and keeps the old one otherwise |
| `LocationContext.Merge` | lib/location/location-context.tsx:104-109 | every field given in the patch takes its value, every other keeps the prior value, `isDetected` is false and the new timestamp is set |
| `LocationContext.MergeCompose` | lib/location/location-context.tsx:103-109 | two overrides in a row are one override with the combined patch |
| `LocationContext.MergeIdempotent` | lib/location/location-context.tsx:103-109 | repeating an override only refreshes the timestamp |
| `LocationContext.MergeEmptyPatch` | lib/location/location-context.tsx:104-109 | an empty patch keeps every geographic field |
| `LocationContext.MergeIgnoresDetectedFlag` | lib/location/location-context.tsx:107 | a patch setting `isDetected` to true is overruled |
| `LocationContext.SavedOverride` | lib/location/location-context.tsx:79-91 | a record is loaded iff storage is readable and holds a serialised record under the key |
| `LocationContext.LocationProvider.constructor` | lib/location/location-context.tsx:73-75 | the first render: the initial location, loading, no override |
| `LocationContext.LocationProvider.LoadSavedOverride` | lib/location/location-context.tsx:78-97 | a saved record becomes the location and sets the override flag; with nothing to restore and no earlier override, the initial location stays; loading ends whether or not a record was loaded; storage is unchanged |
| `LocationContext.LocationProvider.OverrideLocation` | lib/location/location-context.tsx:103-121 | the location becomes the merge; the override flag is set; the stored record equals the new location when storage accepts the write; otherwise the in-memory override still stands |
| `LocationContext.LocationProvider.ResetLocation` | lib/location/location-context.tsx:127-138 | the initial location, no override, and the stored key removed when storage allows, from any prior state |
| `LocationContext.OverrideSurvivesReload` | lib/location/location-context.tsx:78-121 | a persisted override is what a new provider over the same storage shows; both providers keep their invariant |
| `LocationContext.ResetSurvivesReload` | lib/location/location-context.tsx:78-138 | after a reset, a new provider shows the initial location with no override; both providers keep their invariant |
| `ServicesData.GetAllServices` | lib/services/services-data.ts:10-43 | the four services, ids in declaration order |
| `ServicesData.GetServiceById` | lib/services/services-data.ts:45-47 | the first service with that id; a found service has that id; nothing iff no id matches |
| `ServicesData.IsValidService` | lib/services/services-data.ts:49-51 | valid iff the lookup finds a service, iff the id is one of the four |
| `ServicesData.ServiceIdsDistinct` | lib/services/services-data.ts:10-39 | the ids are pairwise distinct |
| `ServicesData.LookupOwnId` | lib/services/services-data.ts:45-47 | each service is what its own id finds |
| `Config.GetServiceBySlug` | lib/config/index.ts:33-35 | the first entry with that slug; nothing iff no slug matches |
| `Config.IsValidService` | lib/config/index.ts:40-42 | valid iff some entry has the slug, iff the lookup finds one |
| `Config.GetAllServiceSlugs` | lib/config/index.ts:47-49 | one slug per entry, same length and order as the catalog |
| `Config.AllServiceSlugsValid` | lib/config/index.ts:40-49 | every listed slug is valid and finds an entry |
| `Config.LookupOwnSlug` | lib/config/index.ts:33-35 | with distinct slugs, an entry's slug finds that entry |
| `Config.FormatWithLocation` | lib/config/index.ts:62-64 | a text without `%location%` is unchanged; for a `$`-free location, every non-overlapping placeholder, left to right, becomes the location; the location `"$&"` leaves every text unchanged |
| `Config.DollarAmpersandLeavesText` | lib/config/index.ts:63 | from any index on, replacing with `"$&"` gives back the rest of the text |
| `Config.GetFormattedTitle` | lib/config/index.ts:54-56 | a template without `%s` is unchanged; for a `$`-free title only the first `%s` is replaced and later ones stay |
| `ServiceUtils.GetAllServices` | lib/services/service-utils.ts:17-20 | the configured service types as they are |
| `ServiceUtils.GetServiceBySlug` | lib/services/service-utils.ts:25-28 | the first entry with that slug, an entry of the catalog; nothing iff no slug matches |
| `ServiceUtils.IsValidService` | lib/services/service-utils.ts:33-36 | valid iff the lookup by slug finds an entry |
| `ServiceUtils.GetAllServiceSlugs` | lib/services/service-utils.ts:41-44 | same length and order as the catalog, each slug valid |
| `ServiceUtils.DefaultTitle` | lib/services/service-utils.ts:52 | the default title starts with the service name and mentions the location |
| `ServiceUtils.DefaultDescription` | lib/services/service-utils.ts:56 | the default description mentions the lower-cased service name and the location |
| `ServiceUtils.GetServiceMetadata` | lib/services/service-utils.ts:49-62 | a truthy meta title or description is filled in with the location; otherwise `name in location` and the fixed sentence with the lower-cased name |
| `ServiceUtils.MetadataMentionsLocation` | lib/services/service-utils.ts:49-62 | the title and description mention the location when they are the defaults, or when the configured text holds the placeholder and the location has no `$` |
| `ServiceUtils.MentionsWhenPlaceholder` | lib/config/index.ts:62-64 | a text with the placeholder mentions the location once filled in |
| `JsString.Lower` | lib/utils.ts:20 | the same length; each upper-case ASCII letter becomes the lower-case letter at the same place in the alphabet, no upper-case ASCII letter is left, and every other character is kept |
| `JsString.ToLowerChar` | lib/utils.ts:20 | an upper-case ASCII letter becomes the lower-case letter at the same place in the alphabet; any other character is kept |
| `JsString.ToUpperChar` | lib/utils.ts:33 | a lower-case ASCII letter becomes the upper-case letter at the same place in the alphabet and lower-cases back to it; any other character is kept |
| `JsString.IndexOf` | lib/location/location-utils.ts:67 | a found index is at or after the start, the text occurs there and at no earlier index from the start; nothing found means no occurrence from the start on |
| `JsString.IncludesIff` | lib/location/location-utils.ts:67 | `includes` holds iff the text occurs at some index |
| `JsString.SplitOn` | lib/utils.ts:32 | at least one piece; joining the pieces with the separator gives the text back |
| `JsString.Join` | lib/utils.ts:34 | the joined text starts with the first piece |
| `JsString.JoinThenSplit` | lib/location/shared-location-utils.ts:45-48 | splitting a join on a character no piece holds gives the pieces back |
| `JsString.ReplaceAll` | lib/config/index.ts:63 | a global replace with no match changes nothing; with a `$`-free replacement it is split-then-join |
| `JsString.ReplaceFirst` | lib/config/index.ts:55 | a string-pattern replace with no match changes nothing; with a `$`-free replacement only the first occurrence is replaced and later ones stay |
| `JsString.Substitution` | lib/config/index.ts:55 | a replacement without `$` stands for itself |
| `JsArray.Find` | lib/config/index.ts:34 | `find` gives the first element satisfying the predicate, nothing iff none does |
| `JsArray.Any` | lib/config/index.ts:41 | `some` holds iff an element satisfies the predicate |
| `JsArray.AnyIffFind` | lib/services/services-data.ts:45-51 | `some` holds iff `find` finds |
| `JsArray.SortBy` | lib/location/location-data-service.ts:331-335 | the sorted sequence has the input's length |
| `JsArray.SortByPermutation` | lib/location/location-data-service.ts:331-335 | sorting rearranges: same multiset |
| `JsArray.SortBySorted` | lib/location/location-data-service.ts:331-335 | the sorted sequence is ordered by key |
| `JsArray.SortByStable` | lib/location/location-data-service.ts:331-335 | elements with equal keys keep their relative order |
| `JsArray.SortedPrefix` | lib/location/location-data-service.ts:331-339 | a prefix of the sort of distinct elements holds that many distinct, ordered elements of the input, none with a larger key than an element left out |
| `LocationDataService.Utf16Units` | lib/location/location-data-service.ts:330 | a character below U+10000 is one code unit, any other a surrogate pair that encodes it |
| `LocationDataService.Utf16` | lib/location/location-data-service.ts:330 | the code units of a text are at least as many as its characters, each below 0x10000 |
| `LocationDataService.Utf16Basic` | lib/location/location-data-service.ts:330 | a text below U+10000 is its own code units |
| `LocationDataService.Utf16Length` | lib/location/location-data-service.ts:302 | `length` is at least the number of characters |
| `LocationDataService.AddUnitsIsSum` | lib/location/location-data-service.ts:330 | the `reduce` fold is the start value plus the sum |
| `LocationDataService.Seed` | lib/location/location-data-service.ts:330 | the seed is the sum of the name's code units, never negative |
| `LocationDataService.SeedConcat` | lib/location/location-data-service.ts:330 | the seed of a concatenation is the sum of the seeds |
| `LocationDataService.CityDataHasNearbyCities` | lib/location/location-data-service.ts:352-357 | every city with predefined content has predefined nearby cities |
| `LocationDataService.WithDistances` | lib/location/location-data-service.ts:189-280 | the major cities in order, each with its drawn distance |
| `LocationDataService.Shuffled` | lib/location/location-data-service.ts:283-284 | the cities in the order the shuffle leaves them |
| `LocationDataService.MajorCitySlugsDistinct` | lib/location/location-data-service.ts:189-280 | the major cities have distinct slugs |
| `LocationDataService.ShuffledDistinct` | lib/location/location-data-service.ts:283-284 | the shuffled cities are pairwise distinct |
| `LocationDataService.GenerateNearbyCities` | lib/location/location-data-service.ts:178-287 | the predefined list when there is one; otherwise, for any shuffle, five cities sorted by distance, a rearrangement of the first five shuffled |
| `LocationDataService.GeneratedNearbyCitiesAreMajorCities` | lib/location/location-data-service.ts:283-286 | five distinct major cities, each with a distance in 100..599 |
| `LocationDataService.GeneratedNearbyCitiesStable` | lib/location/location-data-service.ts:286 | cities at the same distance keep the shuffled order |
| `LocationDataService.Summaries` | lib/location/location-data-service.ts:293-299 | five summaries |
| `LocationDataService.SummaryMentionsName` | lib/location/location-data-service.ts:293-299 | every summary mentions the display name |
| `LocationDataService.SummaryIndex` | lib/location/location-data-service.ts:302 | the index is below five |
| `LocationDataService.GenerateLocationSummary` | lib/location/location-data-service.ts:292-304 | the summary at `length % 5`, which mentions the display name |
| `LocationDataService.SameLengthSameSummary` | lib/location/location-data-service.ts:301-303 | names of equal length get the same summary, each with its own name |
| `LocationDataService.AllIndustriesDistinct` | lib/location/location-data-service.ts:310-327 | the sixteen industries are distinct |
| `LocationDataService.IndustryCount` | lib/location/location-data-service.ts:338 | `4 + seed % 3` lies in 4..6 |
| `LocationDataService.GenerateIndustries` | lib/location/location-data-service.ts:309-340 | exactly `4 + seed % 3` distinct industries from the list, ordered by the sort key |
| `LocationDataService.GenerateIndustriesSmallestKeys` | lib/location/location-data-service.ts:331-339 | no industry left out has a smaller key than one chosen |
| `LocationDataService.GetLocationContent` | lib/location/location-data-service.ts:345-393 | a `CITY_DATA` key gives its entry with the predefined nearby cities; any other gives the generated headline, summary, industries, four key features with the name first, and two regional services |
| `LocationDataService.GeneratedContentMentionsName` | lib/location/location-data-service.ts:370-390 | generated content mentions the display name in its headline, summary, first feature and both services |

## Left out

- Object-literal tables are exact maps. A lookup of a key inherited from `Object.prototype` is not modelled. Examples are `CITY_NAME_MAP["constructor"]` and `CITY_DATA["toString"]`, which JavaScript would find.
- Case mapping covers ASCII letters only. Unicode case mapping (the Kelvin sign, dotted I) is not modelled.
- `\s` is ECMAScript's fixed WhiteSpace and LineTerminator set, written out character by character.
- Local storage is a map from keys to `Stored` values rather than to strings. A stored value is either the serialisation of a record or other text. JSON text is not modelled: parsing a serialised record is taken to give the same record back. Valid JSON that is not a location record is not modelled.
- `parseFloat` and floating-point coordinates are not modelled. A coordinate is identified by the header text it was read from.
- The coordinate defaults of `getLocationContent` (zero for a missing latitude or longitude) are not modelled. They only feed an argument that `generateNearbyCities` ignores.
- `Date.now` is a `now` parameter. A failing storage call is a boolean parameter of each method.
- Missing headers are `Option` `None` in `getLocationData`.
- The `try`/`catch` paths of `extractLocationFromHeaders`, `getLocationData`, `getLiteLocationFromHeaders`, `isIn*` and `getFormattedLocation` are not modelled, because the modelled operations cannot throw.
- `console.*` output is left out.
- Headers are a map with lower-case names. Case-insensitive lookup and the joining of repeated headers are not modelled.
- React plumbing is not modelled: stale closures of the setters, the effect re-running when the `initialLocation` prop changes, `createContext` and `useLocation`. The `cache()` and `async` wrappers of the lookups add no logic and are left out too.
- `Math.random` is the `RandomDraws` parameter: the distances plus an arbitrary rearrangement of the cities. The shuffle comparator `() => 0.5 - Math.random()` is inconsistent, and any permutation is allowed for it.
- The sorts of local arrays in `generateIndustries` and `generateNearbyCities` are modelled on sequences, as a stable insertion sort on values. No array is updated in place.
- `NEARBY_CITIES[location] || generateNearbyCities(location)` is modelled as the generator alone, whose first step returns the predefined list.
- LocationService.FormattedLocation: the if-and-only-if has one more case than the plain statement. A sole part that is itself the text `"Unknown Location"` also gives that text.
- The JSON configuration files are not part of this model. The service catalog, the title template and `NEXT_PUBLIC_SITE_URL` are parameters.
- `getServiceCTAText`, `getServiceSectionTitles`, `getSiteConfig`, `getThemeConfig` and `getServicesConfig` are left out. They return configuration sections unmodified.
- The `ServiceUtils` lookups run over the same catalog as `Config`, so they are stated through `Config`'s definitions.
- `cn`, the theme context, the middleware, the geo-debug endpoint, the pages and components, and lib/location/index.ts are left out. They are class-name merging, UI, logging and re-exports.
