/**
 * Configuration accessors (lib/config/index.ts): catalog lookups by slug,
 * the site title template and the `%location%` placeholder. The JSON
 * configuration files are not part of this model: the service catalog and
 * the title template are parameters.
 */
module Config {
  import opened Wrappers
  import opened JsString
  import JsArray

  /** A catalog entry: the `ServiceData` shape of
      lib/services/service-utils.ts, which the configured service types
      have. */
  datatype ServiceData = ServiceData(
    id: string,
    name: string,
    description: string,
    shortDescription: string,
    slug: string,
    icon: Option<string>,
    metaTitle: Option<string>,
    metaDescription: Option<string>)

  /** `getServiceBySlug`: the first entry whose slug is `slug`, if any. */
  function GetServiceBySlug(catalog: seq<ServiceData>, slug: string): (r: Option<ServiceData>)
    ensures r.None? <==> forall j :: 0 <= j < |catalog| ==> catalog[j].slug != slug
    ensures r.Some? ==> r.value.slug == slug
    ensures r.Some? ==>
              exists i :: 0 <= i < |catalog| && catalog[i] == r.value &&
                          forall j :: 0 <= j < i ==> catalog[j].slug != slug
  {
    JsArray.Find(catalog, (service: ServiceData) => service.slug == slug)
  }

  /** `isValidService`: some entry has slug `slug`, that is, the lookup
      finds one. */
  function IsValidService(catalog: seq<ServiceData>, slug: string): (r: bool)
    ensures r <==> exists i :: 0 <= i < |catalog| && catalog[i].slug == slug
    ensures r <==> GetServiceBySlug(catalog, slug).Some?
  {
    JsArray.Any(catalog, (service: ServiceData) => service.slug == slug)
  }

  /** `getAllServiceSlugs`: the slugs, one per entry, in catalog order. */
  function GetAllServiceSlugs(catalog: seq<ServiceData>): (r: seq<string>)
    ensures |r| == |catalog|
    ensures forall i :: 0 <= i < |r| ==> r[i] == catalog[i].slug
  {
    seq(|catalog|, i requires 0 <= i < |catalog| => catalog[i].slug)
  }

  /** Every listed slug is valid and finds an entry with that slug. */
  lemma AllServiceSlugsValid(catalog: seq<ServiceData>)
    ensures forall i :: 0 <= i < |catalog| ==>
              IsValidService(catalog, GetAllServiceSlugs(catalog)[i]) &&
              GetServiceBySlug(catalog, GetAllServiceSlugs(catalog)[i]).Some?
  {
    var slugs := GetAllServiceSlugs(catalog);
    forall i | 0 <= i < |catalog|
      ensures IsValidService(catalog, slugs[i])
    {
      assert catalog[i].slug == slugs[i];
    }
  }

  /** With distinct slugs, looking up an entry's slug gives that entry. */
  lemma LookupOwnSlug(catalog: seq<ServiceData>, i: nat)
    requires i < |catalog|
    requires forall a, b :: 0 <= a < b < |catalog| ==> catalog[a].slug != catalog[b].slug
    ensures GetServiceBySlug(catalog, catalog[i].slug) == Some(catalog[i])
  {
  }

  /** The placeholder `formatWithLocation` replaces. */
  const LocationPlaceholder: string := "%location%"

  /** `formatWithLocation`: `text.replace(/%location%/g, location)`. A text
      without the placeholder is unchanged; for a location without `$`,
      every placeholder, left to right and without overlap, becomes the
      location, so the result is the text split at the placeholders and
      joined with the location; the location `"$&"` inserts the matched
      placeholder and so leaves every text unchanged. */
  function FormatWithLocation(text: string, location: string): (r: string)
    ensures !Includes(text, LocationPlaceholder) ==> r == text
    ensures NoChar(location, '$') ==> r == Join(SplitOn(text, LocationPlaceholder), location)
    ensures location == "$&" ==> r == text
  {
    assert text[0..] == text;
    DollarAmpersandLeavesText(text, 0);
    ReplaceAll(text, LocationPlaceholder, location)
  }

  /** The location is a replacement string, not plain text: from `from` on,
      `"$&"` puts every matched placeholder back. */
  lemma {:induction false} DollarAmpersandLeavesText(text: string, from: nat)
    requires from <= |text|
    decreases |text| - from
    ensures ReplaceAllFrom(text, LocationPlaceholder, "$&", from) == text[from..]
  {
    var next := IndexOf(text, LocationPlaceholder, from);
    if next.None? {
      ReplaceAllFromNone(text, LocationPlaceholder, "$&", from);
    } else {
      var k := next.value;
      var n := |LocationPlaceholder|;
      DollarAmpersandStep(text, from, k);
      DollarAmpersandLeavesText(text, k + n);
      SlicesJoin(text, from, k, k + n);
    }
  }

  /** At a match, `"$&"` puts the matched placeholder back. */
  lemma DollarAmpersandStep(text: string, from: nat, k: nat)
    requires from <= |text| && IndexOf(text, LocationPlaceholder, from) == Some(k)
    ensures k + |LocationPlaceholder| <= |text|
    ensures ReplaceAllFrom(text, LocationPlaceholder, "$&", from) ==
            text[from..k] + text[k..k + |LocationPlaceholder|] +
            ReplaceAllFrom(text, LocationPlaceholder, "$&", k + |LocationPlaceholder|)
  {
    ReplaceAllFromAt(text, LocationPlaceholder, "$&", from, k);
    SubstitutionMatch(text, k, |LocationPlaceholder|);
  }

  /** `getFormattedTitle`, with the site's title template as a parameter:
      `template.replace('%s', title)`. A template without `%s` is unchanged;
      for a title without `$`, only the first `%s` is replaced and any later
      one stays. */
  function GetFormattedTitle(titleTemplate: string, title: string): (r: string)
    ensures !Includes(titleTemplate, "%s") ==> r == titleTemplate
    ensures NoChar(title, '$') ==>
              var parts := SplitOn(titleTemplate, "%s");
              Includes(titleTemplate, "%s") ==>
                |parts| >= 2 && r == parts[0] + title + Join(parts[1..], "%s")
  {
    ReplaceFirst(titleTemplate, "%s", title)
  }
}
