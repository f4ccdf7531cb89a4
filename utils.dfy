/** Location slugs and service display names (lib/utils.ts). */
module Utils {
  import opened Wrappers
  import opened JsString
  import opened Slugs

  /** The city/region slug: when both parts are truthy, the lower-cased city with
      each whitespace run turned into `-`, then `-`, then the lower-cased region;
      otherwise `fallback`, which defaults to `"your-area"`. */
  function CreateLocationSlug(city: Option<string>, region: Option<string>, fallback: string := "your-area"): (r: string)
    ensures Truthy(city) && Truthy(region) ==>
              r == CollapseWhitespace(Lower(city.value)) + "-" + Lower(region.value)
    ensures !(Truthy(city) && Truthy(region)) ==> r == fallback
  {
    if Truthy(city) && Truthy(region) then
      CollapseWhitespace(Lower(city.value)) + "-" + Lower(region.value)
    else fallback
  }

  /** Without a city or a region, the default fallback `"your-area"` is used. */
  lemma CreateLocationSlugFallback(city: Option<string>, region: Option<string>)
    requires !Truthy(city) || !Truthy(region)
    ensures CreateLocationSlug(city, region) == "your-area"
  {
  }

  /** The city part of a slug never holds whitespace, and neither does the
      whole slug when the region has none. */
  lemma CreateLocationSlugCityPart(city: string, region: string)
    requires city != "" && region != ""
    ensures var r := CreateLocationSlug(Some(city), Some(region));
            exists c :: NoWhitespace(c) && r == c + "-" + Lower(region)
    ensures NoWhitespace(region) ==> NoWhitespace(CreateLocationSlug(Some(city), Some(region)))
  {
    var c := CollapseWhitespace(Lower(city));
    var r := CreateLocationSlug(Some(city), Some(region));
    assert NoWhitespace(c) && r == c + "-" + Lower(region);
    if NoWhitespace(region) {
      forall i | 0 <= i < |r| ensures !IsJsWhitespace(r[i]) {
        if i < |c| {
          assert r[i] == c[i];
        } else if i > |c| {
          assert r[i] == Lower(region)[i - |c| - 1];
        }
      }
    }
  }

  /** Whitespace in the region survives, since the region is only
      lower-cased, while whitespace in the city becomes `-`: a region
      character at index `i` appears at index `|c| + 1 + i` of the slug,
      `c` being the collapsed city. */
  lemma CreateLocationSlugKeepsRegionSpace(city: string, region: string, i: nat)
    requires city != "" && region != ""
    requires i < |region| && IsJsWhitespace(region[i])
    ensures var r := CreateLocationSlug(Some(city), Some(region));
            var k := |CollapseWhitespace(Lower(city))| + 1 + i;
            k < |r| && r[k] == region[i]
    ensures !NoWhitespace(CreateLocationSlug(Some(city), Some(region)))
  {
    var c := CollapseWhitespace(Lower(city));
    var r := CreateLocationSlug(Some(city), Some(region));
    assert r[|c| + 1 + i] == Lower(region)[i];
  }

  /** `formatServiceName`: split on `-`, capitalise the first character of each
      piece, join with single spaces; the result has no `-`, and for a slug
      without spaces its words are exactly the capitalised pieces. */
  function FormatServiceName(slug: string): (r: string)
    ensures NoChar(r, '-')
    ensures NoChar(slug, ' ') ==> SplitOn(r, " ") == CapitalizeAll(SplitOn(slug, "-"))
  {
    if NoChar(slug, ' ') then TitleCaseWords(slug); TitleCase(slug) else TitleCase(slug)
  }

  /** Only the first letter of each piece is upper-cased: `"ac-install"` gives
      `"Ac Install"`, not the `"AC Install"` its documentation shows. */
  lemma FormatServiceNameAcInstall()
    ensures FormatServiceName("ac-install") == "Ac Install"
    ensures FormatServiceName("ac-install") != "AC Install"
  {
    AcInstallPieces();
    TitleCaseOfPieces(["ac", "install"]);
  }

  /** The pieces of `"ac-install"` and their capitalised join. */
  lemma AcInstallPieces()
    ensures Join(["ac", "install"], "-") == "ac-install"
    ensures NoChar("ac", '-') && NoChar("install", '-')
    ensures Join(CapitalizeAll(["ac", "install"]), " ") == "Ac Install"
  {
    var ps := ["ac", "install"];
    assert Capitalize("ac") == "Ac";
    assert Capitalize("install") == "Install";
    assert CapitalizeAll(ps) == ["Ac", "Install"];
    assert Join(["Ac", "Install"], " ") == "Ac Install";
  }
}
