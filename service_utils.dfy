/**
 * Service helpers (lib/services/service-utils.ts). The catalog is the
 * configured list of service types, passed as a parameter; the three
 * lookups are those of the configuration module over that list, and the
 * metadata builder fills the location into a title and a description.
 */
module ServiceUtils {
  import opened Wrappers
  import opened JsString
  import Config

  type ServiceData = Config.ServiceData

  /** `getAllServices`: the configured service types, as they are. */
  function GetAllServices(catalog: seq<ServiceData>): (r: seq<ServiceData>)
    ensures r == catalog
  {
    catalog
  }

  /** `getServiceBySlug`: the first entry with slug `slug`, if any. */
  function GetServiceBySlug(catalog: seq<ServiceData>, slug: string): (r: Option<ServiceData>)
    ensures r == Config.GetServiceBySlug(catalog, slug)
    ensures r.Some? ==> r.value.slug == slug && r.value in catalog
    ensures r.None? <==> forall j :: 0 <= j < |catalog| ==> catalog[j].slug != slug
  {
    Config.GetServiceBySlug(GetAllServices(catalog), slug)
  }

  /** `isValidService`: holds exactly when the lookup by slug finds an entry. */
  function IsValidService(catalog: seq<ServiceData>, slug: string): (r: bool)
    ensures r == Config.IsValidService(catalog, slug)
    ensures r <==> GetServiceBySlug(catalog, slug).Some?
  {
    Config.IsValidService(GetAllServices(catalog), slug)
  }

  /** `getAllServiceSlugs`: one slug per entry, in order, each of them valid. */
  function GetAllServiceSlugs(catalog: seq<ServiceData>): (r: seq<string>)
    ensures |r| == |catalog|
    ensures forall i :: 0 <= i < |r| ==> r[i] == catalog[i].slug
    ensures forall i :: 0 <= i < |r| ==> IsValidService(catalog, r[i])
  {
    Config.AllServiceSlugsValid(catalog);
    Config.GetAllServiceSlugs(GetAllServices(catalog))
  }

  /** The `{ title, description }` pair `getServiceMetadata` returns. */
  datatype ServiceMetadata = ServiceMetadata(title: string, description: string)

  /** The title used without a configured meta title: it starts with the
      service name and mentions the location. */
  function DefaultTitle(name: string, location: string): (r: string)
    ensures |name| <= |r| && r[..|name|] == name
    ensures Includes(r, location)
  {
    IncludesMiddle(name + " in ", location, "");
    assert name + " in " + location + "" == name + " in " + location;
    name + " in " + location
  }

  /** The description used without a configured meta description: it
      mentions the lower-cased service name and the location. */
  function DefaultDescription(name: string, location: string): (r: string)
    ensures Includes(r, Lower(name))
    ensures Includes(r, location)
  {
    var lead := "Professional ";
    var middle := " services in ";
    var tail := ". Contact us for all your needs.";
    var text := lead + Lower(name) + middle + location + tail;
    IncludesMiddle(lead, Lower(name), middle + location + tail);
    assert lead + Lower(name) + (middle + location + tail) == text;
    IncludesMiddle(lead + Lower(name) + middle, location, tail);
    text
  }

  /** `getServiceMetadata`: a non-empty meta title (or description) with its
      placeholders filled in, otherwise the fixed sentence built from the
      service name and the location. */
  function GetServiceMetadata(service: ServiceData, location: string): (r: ServiceMetadata)
    ensures Truthy(service.metaTitle) ==>
              r.title == Config.FormatWithLocation(service.metaTitle.value, location)
    ensures !Truthy(service.metaTitle) ==> r.title == DefaultTitle(service.name, location)
    ensures Truthy(service.metaDescription) ==>
              r.description == Config.FormatWithLocation(service.metaDescription.value, location)
    ensures !Truthy(service.metaDescription) ==>
              r.description == DefaultDescription(service.name, location)
  {
    var title :=
      if Truthy(service.metaTitle) then Config.FormatWithLocation(service.metaTitle.value, location)
      else DefaultTitle(service.name, location);
    var description :=
      if Truthy(service.metaDescription) then Config.FormatWithLocation(service.metaDescription.value, location)
      else DefaultDescription(service.name, location);
    ServiceMetadata(title, description)
  }

  /** Joining at least two pieces with `sep` puts `sep` right after the first. */
  lemma JoinShowsSeparator(parts: seq<string>, sep: string)
    requires |parts| >= 2
    ensures OccursAt(Join(parts, sep), sep, |parts[0]|)
  {
    var s := Join(parts, sep);
    assert s == parts[0] + sep + Join(parts[1..], sep);
    assert s[|parts[0]|..|parts[0]| + |sep|] == sep;
  }

  /** The location appears in the title and the description when they are
      the default sentences, and also when a configured text holds the
      placeholder and the location has no `$`. */
  lemma MetadataMentionsLocation(service: ServiceData, location: string)
    requires Truthy(service.metaTitle) ==>
               Includes(service.metaTitle.value, Config.LocationPlaceholder) && NoChar(location, '$')
    requires Truthy(service.metaDescription) ==>
               Includes(service.metaDescription.value, Config.LocationPlaceholder) && NoChar(location, '$')
    ensures Includes(GetServiceMetadata(service, location).title, location)
    ensures Includes(GetServiceMetadata(service, location).description, location)
  {
    if Truthy(service.metaTitle) {
      MentionsWhenPlaceholder(service.metaTitle.value, location);
    }
    if Truthy(service.metaDescription) {
      MentionsWhenPlaceholder(service.metaDescription.value, location);
    }
  }

  /** A text with the placeholder mentions the location once it is filled in. */
  lemma MentionsWhenPlaceholder(text: string, location: string)
    requires Includes(text, Config.LocationPlaceholder) && NoChar(location, '$')
    ensures Includes(Config.FormatWithLocation(text, location), location)
  {
    var parts := SplitOn(text, Config.LocationPlaceholder);
    assert |parts| >= 2;
    JoinShowsSeparator(parts, location);
    IncludesIff(Config.FormatWithLocation(text, location), location);
  }
}
