/**
 * Location page content (lib/location/location-data-service.ts):
 * predefined content for three cities, nearby-city lists, and generated
 * content for every other location, chosen deterministically from the
 * display name. JavaScript strings are UTF-16: `length` and `charCodeAt`
 * count code units, which `Utf16` below makes explicit. The random
 * distances and the random shuffle of the nearby-city generator are a
 * `RandomDraws` parameter.
 */
module LocationDataService {
  import opened Wrappers
  import opened JsString
  import JsArray

  // ---------------------------------------------------------------------
  // UTF-16 code units

  /** The UTF-16 code units of one character: itself below U+10000, a
      surrogate pair above. */
  function Utf16Units(c: char): (r: seq<int>)
    ensures c as int < 0x1_0000 ==> r == [c as int]
    ensures c as int >= 0x1_0000 ==>
              |r| == 2 && 0xD800 <= r[0] < 0xDC00 && 0xDC00 <= r[1] < 0xE000 &&
              0x1_0000 + (r[0] - 0xD800) * 0x400 + (r[1] - 0xDC00) == c as int
    ensures forall i :: 0 <= i < |r| ==> 0 <= r[i] < 0x1_0000
  {
    var v := c as int;
    if v < 0x1_0000 then [v]
    else [0xD800 + (v - 0x1_0000) / 0x400, 0xDC00 + (v - 0x1_0000) % 0x400]
  }

  /** `s.split("").map(ch => ch.charCodeAt(0))`: the code units of `s`. */
  function Utf16(s: string): (r: seq<int>)
    ensures |r| >= |s|
    ensures forall i :: 0 <= i < |r| ==> 0 <= r[i] < 0x1_0000
  {
    if s == [] then [] else Utf16Units(s[0]) + Utf16(s[1..])
  }

  /** Encoding a concatenation concatenates the encodings. */
  lemma {:induction false} Utf16Concat(a: string, b: string)
    decreases |a|
    ensures Utf16(a + b) == Utf16(a) + Utf16(b)
  {
    if a != [] {
      assert (a + b)[0] == a[0];
      assert (a + b)[1..] == a[1..] + b;
      Utf16Concat(a[1..], b);
    } else {
      assert a + b == b;
    }
  }

  /** A text of characters below U+10000 (ASCII among them) is its own
      encoding, so its `length` is its number of characters. */
  lemma {:induction false} Utf16Basic(s: string)
    requires forall i :: 0 <= i < |s| ==> s[i] as int < 0x1_0000
    decreases |s|
    ensures |Utf16(s)| == |s|
    ensures forall i :: 0 <= i < |s| ==> Utf16(s)[i] == s[i] as int
  {
    if s != [] {
      Utf16Basic(s[1..]);
      var rest := Utf16(s[1..]);
      assert Utf16(s) == [s[0] as int] + rest;
      forall i | 0 < i < |s| ensures Utf16(s)[i] == s[i] as int {
        assert Utf16(s)[i] == rest[i - 1];
        assert rest[i - 1] == s[1..][i - 1] as int;
      }
    }
  }

  /** `s.length`. */
  function Utf16Length(s: string): (r: nat)
    ensures r >= |s|
  {
    |Utf16(s)|
  }

  /** The running total `reduce((acc, char) => acc + char.charCodeAt(0), acc)`
      over the code units, left to right. */
  function AddUnits(acc: int, units: seq<int>): int
    decreases |units|
  {
    if units == [] then acc else AddUnits(acc + units[0], units[1..])
  }

  /** The sum of a sequence of numbers, first element first. */
  function Sum(units: seq<int>): int
    decreases |units|
  {
    if units == [] then 0 else units[0] + Sum(units[1..])
  }

  /** The left fold is the sum added to the start value. */
  lemma {:induction false} AddUnitsIsSum(acc: int, units: seq<int>)
    decreases |units|
    ensures AddUnits(acc, units) == acc + Sum(units)
  {
    if units != [] {
      AddUnitsIsSum(acc + units[0], units[1..]);
    }
  }

  lemma {:induction false} SumConcat(a: seq<int>, b: seq<int>)
    decreases |a|
    ensures Sum(a + b) == Sum(a) + Sum(b)
  {
    if a != [] {
      assert (a + b)[0] == a[0];
      assert (a + b)[1..] == a[1..] + b;
      SumConcat(a[1..], b);
    } else {
      assert a + b == b;
    }
  }

  lemma {:induction false} SumNonNegative(units: seq<int>)
    requires forall i :: 0 <= i < |units| ==> units[i] >= 0
    decreases |units|
    ensures Sum(units) >= 0
  {
    if units != [] {
      SumNonNegative(units[1..]);
    }
  }

  /** The seed of `generateIndustries`: the sum of the name's code units. */
  function Seed(displayName: string): (r: nat)
    ensures r == Sum(Utf16(displayName))
  {
    var units := Utf16(displayName);
    AddUnitsIsSum(0, units);
    SumNonNegative(units);
    AddUnits(0, units)
  }

  /** The seed of a concatenation is the sum of the seeds. */
  lemma SeedConcat(a: string, b: string)
    ensures Seed(a + b) == Seed(a) + Seed(b)
  {
    Utf16Concat(a, b);
    SumConcat(Utf16(a), Utf16(b));
  }

  // ---------------------------------------------------------------------
  // Data

  /** `NearbyCity`. Distances and populations are whole numbers here. */
  datatype NearbyCity = NearbyCity(name: string, slug: string, distance: int, population: Option<int>)

  /** A value of the `statistics` record: text or a number. */
  datatype StatValue = Text(text: string) | Number(number: int)

  datatype Testimonial = Testimonial(quote: string, author: string, company: Option<string>)

  datatype RegionalService = RegionalService(name: string, description: string)

  /** `LocationContent`; the optional fields are `None` when absent. The
      statistics record is its list of entries, in order. */
  datatype LocationContent = LocationContent(
    headline: Option<string>,
    summary: Option<string>,
    keyFeatures: Option<seq<string>>,
    statistics: Option<seq<(string, StatValue)>>,
    industries: Option<seq<string>>,
    testimonial: Option<Testimonial>,
    nearbyCities: seq<NearbyCity>,
    regionalServices: Option<seq<RegionalService>>)

  /** `Partial<LocationContent>` as `CITY_DATA` uses it: every field but the
      nearby cities. */
  datatype CityContent = CityContent(
    headline: Option<string>,
    summary: Option<string>,
    keyFeatures: Option<seq<string>>,
    statistics: Option<seq<(string, StatValue)>>,
    industries: Option<seq<string>>,
    testimonial: Option<Testimonial>,
    regionalServices: Option<seq<RegionalService>>)

  /** The content without its nearby cities. */
  function WithoutNearby(c: LocationContent): CityContent {
    CityContent(c.headline, c.summary, c.keyFeatures, c.statistics, c.industries,
                c.testimonial, c.regionalServices)
  }

  /** `CITY_DATA`. */
  const CityData: map<string, CityContent> := map[
    "new-york" := CityContent(
      Some("Premier Digital Solutions for New York Businesses"),
      Some("New York City is the financial capital of the world and home to countless startups and enterprises that demand cutting-edge digital solutions. Our NYC team specializes in fintech, media, and enterprise-level applications."),
      Some(["Financial district expertise", "Media industry solutions",
            "High-volume infrastructure", "Enterprise-level security"]),
      Some([("startups", Text("10,000+")), ("fortune500", Number(45)),
            ("annualGrowth", Text("7.2%"))]),
      Some(["Finance", "Media", "Fashion", "Real Estate", "Technology"]),
      Some(Testimonial(
        "Cyber Hand transformed our digital presence and helped us connect with clients all across Manhattan and beyond.",
        "Sarah Goldberg",
        Some("Manhattan Financial Group"))),
      Some([
        RegionalService("NYC Startup Launchpad",
          "Comprehensive digital package designed specifically for New York startups looking to make an immediate impact."),
        RegionalService("Manhattan Enterprise Solutions",
          "Enterprise-grade infrastructure and security solutions for New York's largest businesses.")])),
    "lewis-center" := CityContent(
      Some("Custom Digital Solutions for Lewis Center Businesses"),
      Some("Lewis Center combines suburban charm with proximity to Columbus, offering a unique environment for growing businesses. Our team understands the local market and provides tailored digital solutions to help you stand out."),
      Some(["Local business focus", "Columbus metro area expertise",
            "Suburban market strategies", "Community integration"]),
      Some([("smallBusinesses", Text("1,200+")), ("annualGrowth", Text("5.8%")),
            ("populationGrowth", Text("12.3%"))]),
      Some(["Retail", "Professional Services", "Healthcare", "Education", "Real Estate"]),
      Some(Testimonial(
        "As a Lewis Center business owner, I needed a digital partner who understood our local market. Cyber Hand delivered beyond expectations.",
        "Michael Reynolds",
        Some("Olentangy Family Dental"))),
      Some([
        RegionalService("Local SEO Package",
          "Specialized SEO targeting Columbus metro area customers with location-specific strategies."),
        RegionalService("Community Business Platform",
          "Digital solutions that help you connect with the Lewis Center and Olentangy community.")])),
    "chicago" := CityContent(
      Some("Powerful Digital Strategies for Chicago Businesses"),
      Some("Chicago's diverse economy spans finance, manufacturing, technology, and logistics. Our Chicago team brings specialized expertise in these sectors, helping businesses leverage digital solutions for growth in the Windy City."),
      Some(["Midwest market expertise", "Multi-industry solutions",
            "Enterprise and SMB focus", "Chicago-specific digital marketing"]),
      Some([("enterprises", Text("5,600+")), ("techGrowth", Text("9.3%")),
            ("digitalAdSpend", Text("$1.2B"))]),
      Some(["Finance", "Manufacturing", "Logistics", "Technology", "Healthcare"]),
      Some(Testimonial(
        "Cyber Hand helped us establish a digital presence that resonates with Chicago's business community while expanding our reach throughout the Midwest.",
        "James Wilson",
        Some("Lakefront Innovations"))),
      None)
  ]

  /** `NEARBY_CITIES`. */
  const NearbyCities: map<string, seq<NearbyCity>> := map[
    "new-york" := [
      NearbyCity("Brooklyn", "brooklyn", 5, Some(2648452)),
      NearbyCity("Queens", "queens", 8, Some(2272771)),
      NearbyCity("Jersey City", "jersey-city", 5, Some(283927)),
      NearbyCity("Hoboken", "hoboken", 4, Some(52677)),
      NearbyCity("Yonkers", "yonkers", 15, Some(211569))],
    "lewis-center" := [
      NearbyCity("Columbus", "columbus", 15, Some(905748)),
      NearbyCity("Dublin", "dublin", 10, Some(49328)),
      NearbyCity("Westerville", "westerville", 8, Some(41103)),
      NearbyCity("Delaware", "delaware", 12, Some(41763)),
      NearbyCity("Powell", "powell", 3, Some(14163))],
    "chicago" := [
      NearbyCity("Evanston", "evanston", 12, Some(78110)),
      NearbyCity("Oak Park", "oak-park", 9, Some(52265)),
      NearbyCity("Naperville", "naperville", 28, Some(149540)),
      NearbyCity("Aurora", "aurora", 37, Some(180542)),
      NearbyCity("Schaumburg", "schaumburg", 30, Some(78723))],
    "los-angeles" := [
      NearbyCity("Santa Monica", "santa-monica", 15, Some(91577)),
      NearbyCity("Pasadena", "pasadena", 10, Some(138699)),
      NearbyCity("Long Beach", "long-beach", 22, Some(466742)),
      NearbyCity("Beverly Hills", "beverly-hills", 7, Some(34109)),
      NearbyCity("Glendale", "glendale", 8, Some(196543))]
  ]

  /** Every city with predefined content also has predefined nearby cities. */
  lemma CityDataHasNearbyCities()
    ensures forall key :: key in CityData ==> key in NearbyCities
  {
  }

  // ---------------------------------------------------------------------
  // Nearby cities

  /** A city of the fixed list of major cities, before its distance is drawn. */
  datatype MajorCity = MajorCity(name: string, slug: string, population: int)

  /** The major cities, in declaration order. */
  const MajorCities: seq<MajorCity> := [
    MajorCity("New York", "new-york", 8804190),
    MajorCity("Los Angeles", "los-angeles", 3898747),
    MajorCity("Chicago", "chicago", 2746388),
    MajorCity("Houston", "houston", 2304580),
    MajorCity("Phoenix", "phoenix", 1608139),
    MajorCity("Philadelphia", "philadelphia", 1603797),
    MajorCity("San Antonio", "san-antonio", 1434625),
    MajorCity("San Diego", "san-diego", 1386932),
    MajorCity("Dallas", "dallas", 1304379),
    MajorCity("San Jose", "san-jose", 1013240),
    MajorCity("Austin", "austin", 961855),
    MajorCity("Jacksonville", "jacksonville", 949611),
    MajorCity("Fort Worth", "fort-worth", 918915),
    MajorCity("Columbus", "columbus", 905748),
    MajorCity("Indianapolis", "indianapolis", 887642)
  ]

  /** Each city's `Math.floor(Math.random() * 500) + 100`, and the order the
      shuffling sort leaves the cities in: `order[i]` is the position in
      `MajorCities` of the city that ends up at position `i`. */
  datatype RandomDraws = RandomDraws(distances: seq<int>, order: seq<int>)

  /** What the random calls can produce: one distance in 100..599 per city,
      and a rearrangement of the cities. */
  predicate ValidDraws(d: RandomDraws) {
    |d.distances| == |MajorCities| &&
    (forall i :: 0 <= i < |d.distances| ==> 100 <= d.distances[i] < 600) &&
    |d.order| == |MajorCities| &&
    (forall i :: 0 <= i < |d.order| ==> 0 <= d.order[i] < |MajorCities|) &&
    JsArray.NoDup(d.order)
  }

  /** The major cities with their drawn distances. */
  function WithDistances(distances: seq<int>): (r: seq<NearbyCity>)
    requires |distances| == |MajorCities|
    ensures |r| == |MajorCities|
    ensures forall i :: 0 <= i < |r| ==>
              r[i] == NearbyCity(MajorCities[i].name, MajorCities[i].slug, distances[i],
                                 Some(MajorCities[i].population))
  {
    seq(|MajorCities|, i requires 0 <= i < |MajorCities| =>
      NearbyCity(MajorCities[i].name, MajorCities[i].slug, distances[i], Some(MajorCities[i].population)))
  }

  /** The cities after the shuffling sort. */
  function Shuffled(d: RandomDraws): (r: seq<NearbyCity>)
    requires ValidDraws(d)
    ensures |r| == |MajorCities|
    ensures forall i :: 0 <= i < |r| ==> r[i] == WithDistances(d.distances)[d.order[i]]
  {
    var cities := WithDistances(d.distances);
    seq(|d.order|, i requires 0 <= i < |d.order| => cities[d.order[i]])
  }

  /** The major cities have distinct slugs. */
  lemma MajorCitySlugsDistinct()
    ensures forall i, j :: 0 <= i < j < |MajorCities| ==> MajorCities[i].slug != MajorCities[j].slug
  {
  }

  /** The shuffled cities are pairwise distinct. */
  lemma ShuffledDistinct(d: RandomDraws)
    requires ValidDraws(d)
    ensures JsArray.NoDup(Shuffled(d))
  {
    var s := Shuffled(d);
    MajorCitySlugsDistinct();
    forall i, j | 0 <= i < j < |s| ensures s[i] != s[j] {
      assert d.order[i] != d.order[j];
      assert s[i].slug == MajorCities[d.order[i]].slug;
      assert s[j].slug == MajorCities[d.order[j]].slug;
    }
  }

  /** The comparator key of `(a, b) => a.distance - b.distance`. */
  function Distance(c: NearbyCity): int {
    c.distance
  }

  /** `generateNearbyCities`, with the random calls as `draws`: the
      predefined list when there is one, otherwise the first five shuffled
      major cities sorted by distance. The coordinates it accepts are
      ignored by the source and not modelled. */
  function GenerateNearbyCities(location: string, draws: RandomDraws): (r: seq<NearbyCity>)
    requires ValidDraws(draws)
    ensures location in NearbyCities ==> r == NearbyCities[location]
    ensures location !in NearbyCities ==>
              |r| == 5 &&
              JsArray.SortedBy(r, Distance) &&
              multiset(r) == multiset(Shuffled(draws)[..5])
  {
    if location in NearbyCities then NearbyCities[location]
    else
      var picked := Shuffled(draws)[..5];
      JsArray.SortByPermutation(picked, Distance);
      JsArray.SortBySorted(picked, Distance);
      JsArray.SortBy(picked, Distance)
  }

  /** A generated list holds five distinct major cities, each with a distance
      in 100..599 that was drawn for it. */
  lemma GeneratedNearbyCitiesAreMajorCities(location: string, draws: RandomDraws)
    requires ValidDraws(draws) && location !in NearbyCities
    ensures var r := GenerateNearbyCities(location, draws);
            JsArray.NoDup(r) &&
            forall c :: c in r ==>
              100 <= c.distance < 600 &&
              exists i :: 0 <= i < |MajorCities| && c == WithDistances(draws.distances)[i]
  {
    var r := GenerateNearbyCities(location, draws);
    var s := Shuffled(draws);
    ShuffledDistinct(draws);
    JsArray.NoDupPrefix(s, 5);
    JsArray.NoDupPermutation(s[..5], r);
    forall c | c in r
      ensures 100 <= c.distance < 600
      ensures exists i :: 0 <= i < |MajorCities| && c == WithDistances(draws.distances)[i]
    {
      assert c in multiset(s[..5]);
      var k :| 0 <= k < 5 && s[k] == c;
      assert c == WithDistances(draws.distances)[draws.order[k]];
    }
  }

  /** Cities at the same distance keep the shuffled order. */
  lemma GeneratedNearbyCitiesStable(location: string, draws: RandomDraws, distance: int)
    requires ValidDraws(draws) && location !in NearbyCities
    ensures JsArray.WithKey(GenerateNearbyCities(location, draws), Distance, distance) ==
            JsArray.WithKey(Shuffled(draws)[..5], Distance, distance)
  {
    JsArray.SortByStable(Shuffled(draws)[..5], Distance, distance);
  }

  // ---------------------------------------------------------------------
  // Summary

  // The fixed texts around the display name in the five summaries.
  const Summary0After: string := " is a growing market with unique opportunities for businesses looking to expand their digital presence. Our team provides tailored solutions to help you connect with local customers and stand out from the competition."
  const Summary1Before: string := "Businesses in "
  const Summary1After: string := " face unique challenges and opportunities in today's digital landscape. Our specialized services help you navigate these challenges and leverage local market knowledge for growth."
  const Summary2Before: string := "The "
  const Summary2After: string := " area has a distinctive business environment with its own digital trends and consumer behaviors. Our team has the expertise to help you succeed in this specific market."
  const Summary3After: string := " combines its unique character with growing digital opportunities. We offer specialized services designed specifically for businesses in this region looking to maximize their online potential."
  const Summary4Before: string := "In "
  const Summary4After: string := ", businesses need digital solutions that resonate with the local community while enabling broader reach. Our tailored approach helps you achieve both local relevance and wider visibility."

  /** The five summaries of `generateLocationSummary`, for a display name. */
  function Summaries(displayName: string): (r: seq<string>)
    ensures |r| == 5
  {
    [
      displayName + Summary0After,
      Summary1Before + displayName + Summary1After,
      Summary2Before + displayName + Summary2After,
      displayName + Summary3After,
      Summary4Before + displayName + Summary4After
    ]
  }

  /** Every summary mentions the display name. */
  lemma SummaryMentionsName(displayName: string, i: nat)
    requires i < 5
    ensures Includes(Summaries(displayName)[i], displayName)
  {
    var r := Summaries(displayName);
    if i == 0 {
      assert r[0] == "" + displayName + Summary0After;
      IncludesMiddle("", displayName, Summary0After);
    } else if i == 1 {
      IncludesMiddle(Summary1Before, displayName, Summary1After);
    } else if i == 2 {
      IncludesMiddle(Summary2Before, displayName, Summary2After);
    } else if i == 3 {
      assert r[3] == "" + displayName + Summary3After;
      IncludesMiddle("", displayName, Summary3After);
    } else {
      IncludesMiddle(Summary4Before, displayName, Summary4After);
    }
  }

  /** Which summary a display name gets: its `length` modulo 5. */
  function SummaryIndex(displayName: string): (r: nat)
    ensures r < 5
  {
    Utf16Length(displayName) % 5
  }

  /** `generateLocationSummary`: the summary at `displayName.length % 5`
      (counted in UTF-16 code units), which mentions the name. */
  function GenerateLocationSummary(displayName: string): (r: string)
    ensures r == Summaries(displayName)[SummaryIndex(displayName)]
    ensures Includes(r, displayName)
  {
    SummaryMentionsName(displayName, SummaryIndex(displayName));
    var summaries := Summaries(displayName);
    summaries[Utf16Length(displayName) % |summaries|]
  }

  /** Names of equal length get the same summary, each with its own name:
      the summary of one name is the other's with the names swapped. */
  lemma SameLengthSameSummary(a: string, b: string)
    requires Utf16Length(a) == Utf16Length(b)
    ensures SummaryIndex(a) == SummaryIndex(b)
    ensures GenerateLocationSummary(b) == Summaries(b)[SummaryIndex(a)]
  {
  }

  // ---------------------------------------------------------------------
  // Industries

  /** The sixteen industries of `generateIndustries`, in declaration order. */
  const AllIndustries: seq<string> := [
    "Retail",
    "Healthcare",
    "Education",
    "Technology",
    "Manufacturing",
    "Financial Services",
    "Hospitality",
    "Real Estate",
    "Construction",
    "Professional Services",
    "Transportation",
    "Agriculture",
    "Energy",
    "Entertainment",
    "Food & Beverage",
    "Tourism"
  ]

  lemma AllIndustriesDistinct()
    ensures JsArray.NoDup(AllIndustries)
  {
  }

  /** The comparator key of the industry sort:
      `(seed + name.length) % allIndustries.length`. Both operands are
      non-negative, so the remainder is that of JavaScript. */
  function IndustryKey(seed: nat): (key: string -> int) {
    (name: string) => (seed + Utf16Length(name)) % |AllIndustries|
  }

  /** The number of industries returned: `4 + (seed % 3)`. */
  function IndustryCount(seed: nat): (r: nat)
    ensures 4 <= r <= 6
  {
    4 + seed % 3
  }

  /** `generateIndustries`: the industries sorted by key, stable, and the
      first `4 + seed % 3` of them: distinct industries of the list, in key
      order. */
  function GenerateIndustries(displayName: string): (r: seq<string>)
    ensures |r| == IndustryCount(Seed(displayName))
    ensures JsArray.NoDup(r)
    ensures forall x :: x in r ==> x in AllIndustries
    ensures JsArray.SortedBy(r, IndustryKey(Seed(displayName)))
  {
    var seed := Seed(displayName);
    AllIndustriesDistinct();
    JsArray.SortedPrefix(AllIndustries, IndustryKey(seed), IndustryCount(seed));
    JsArray.SortBy(AllIndustries, IndustryKey(seed))[..IndustryCount(seed)]
  }

  /** The industries chosen are those with the smallest keys: none left out
      has a smaller key than one chosen. */
  lemma GenerateIndustriesSmallestKeys(displayName: string, x: string, y: string)
    requires x in AllIndustries && x !in GenerateIndustries(displayName)
    requires y in GenerateIndustries(displayName)
    ensures IndustryKey(Seed(displayName))(y) <= IndustryKey(Seed(displayName))(x)
  {
    var seed := Seed(displayName);
    AllIndustriesDistinct();
    JsArray.SortedPrefix(AllIndustries, IndustryKey(seed), IndustryCount(seed));
  }

  // ---------------------------------------------------------------------
  // Content

  // The fixed texts of generated content.
  const HeadlineBefore: string := "Custom Digital Solutions for "
  const HeadlineAfter: string := " Businesses"
  const MarketExpertise: string := " market expertise"
  const GenericFeatures: seq<string> :=
    ["Customized local digital strategies", "Regional business knowledge", "Community-focused solutions"]
  const GrowthPackage: string := " Business Growth Package"
  const GrowthPackageBefore: string := "Comprehensive digital solutions tailored specifically for businesses in "
  const LocalSeo: string := "Local SEO Services"
  const LocalSeoBefore: string := "Advanced search engine optimization targeting customers in the "
  const LocalSeoAfter: string := " area."

  /** `getLocationContent`, without the cache and the unused coordinates:
      predefined content with the predefined nearby cities, or content
      generated from the display name. `NEARBY_CITIES[location] ||
      generateNearbyCities(location)` is the generator itself, whose first
      step returns the predefined list. */
  function GetLocationContent(location: string, displayName: string, draws: RandomDraws): (r: LocationContent)
    requires ValidDraws(draws)
    ensures r.nearbyCities == GenerateNearbyCities(location, draws)
    ensures location in CityData ==>
              WithoutNearby(r) == CityData[location] && r.nearbyCities == NearbyCities[location]
    ensures location !in CityData ==>
              r.headline == Some(HeadlineBefore + displayName + HeadlineAfter) &&
              r.summary == Some(GenerateLocationSummary(displayName)) &&
              r.industries == Some(GenerateIndustries(displayName)) &&
              r.statistics.None? && r.testimonial.None?
    ensures location !in CityData ==>
              r.keyFeatures.Some? && |r.keyFeatures.value| == 4 &&
              r.keyFeatures.value[0] == displayName + MarketExpertise &&
              r.regionalServices.Some? && |r.regionalServices.value| == 2
  {
    CityDataHasNearbyCities();
    if location in CityData then
      var c := CityData[location];
      LocationContent(c.headline, c.summary, c.keyFeatures, c.statistics, c.industries,
                      c.testimonial, GenerateNearbyCities(location, draws), c.regionalServices)
    else
      LocationContent(
        Some(HeadlineBefore + displayName + HeadlineAfter),
        Some(GenerateLocationSummary(displayName)),
        Some([displayName + MarketExpertise] + GenericFeatures),
        None,
        Some(GenerateIndustries(displayName)),
        None,
        GenerateNearbyCities(location, draws),
        Some([
          RegionalService(displayName + GrowthPackage, GrowthPackageBefore + displayName + "."),
          RegionalService(LocalSeo, LocalSeoBefore + displayName + LocalSeoAfter)]))
  }

  /** Generated content mentions the display name in its headline, summary,
      first key feature, and the texts of both regional services. */
  lemma GeneratedContentMentionsName(location: string, displayName: string, draws: RandomDraws)
    requires ValidDraws(draws) && location !in CityData
    ensures var r := GetLocationContent(location, displayName, draws);
            Includes(r.headline.value, displayName) &&
            Includes(r.summary.value, displayName) &&
            Includes(r.keyFeatures.value[0], displayName)
    ensures var services := GetLocationContent(location, displayName, draws).regionalServices.value;
            Includes(services[0].name, displayName) &&
            Includes(services[0].description, displayName) &&
            Includes(services[1].description, displayName)
  {
    IncludesMiddle(HeadlineBefore, displayName, HeadlineAfter);
    assert displayName + MarketExpertise == "" + displayName + MarketExpertise;
    IncludesMiddle("", displayName, MarketExpertise);
    assert displayName + GrowthPackage == "" + displayName + GrowthPackage;
    IncludesMiddle("", displayName, GrowthPackage);
    IncludesMiddle(GrowthPackageBefore, displayName, ".");
    IncludesMiddle(LocalSeoBefore, displayName, LocalSeoAfter);
  }
}
