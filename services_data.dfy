/**
 * The built-in service list (lib/services/services-data.ts): four services
 * identified by id, with lookups by id.
 */
module ServicesData {
  import opened Wrappers
  import JsArray

  /** `Service`: the optional icon and image address are `None` when absent. */
  datatype Service = Service(
    id: string,
    name: string,
    description: string,
    shortDescription: string,
    icon: Option<string>,
    imageUrl: Option<string>)

  /** `SERVICES`, in declaration order. */
  const Services: seq<Service> := [
    Service(
      "ac-install",
      "AC Installation",
      "Professional air conditioning installation services for residential and commercial properties. Our expert technicians ensure your new system is properly sized and installed for maximum efficiency and comfort.",
      "Expert installation of air conditioning systems for optimal comfort and efficiency.",
      Some("fan"),
      None),
    Service(
      "furnace-repair",
      "Furnace Repair",
      "Fast, reliable furnace repair services to keep your home warm and comfortable. Our team can diagnose and fix any heating issue, from minor repairs to major system failures.",
      "Quick and reliable heating system repairs to restore comfort to your home.",
      Some("flame"),
      None),
    Service(
      "hvac-maintenance",
      "HVAC Maintenance",
      "Regular maintenance programs to keep your heating and cooling systems running efficiently year-round. Preventative maintenance helps avoid costly breakdowns and extends the life of your equipment.",
      "Preventative care programs to optimize performance and extend equipment life.",
      Some("wrench"),
      None),
    Service(
      "template-service",
      "Template Service",
      "This is a template service description that can be customized based on your specific offerings. Detailed information about the service would go here.",
      "Customizable template for showcasing additional services.",
      Some("settings"),
      None)
  ]

  /** The ids of the built-in services, in order. */
  const ServiceIds: seq<string> := ["ac-install", "furnace-repair", "hvac-maintenance", "template-service"]

  /** `getAllServices`: the four services, ids in declaration order. */
  function GetAllServices(): (r: seq<Service>)
    ensures |r| == |ServiceIds|
    ensures forall i :: 0 <= i < |r| ==> r[i].id == ServiceIds[i]
  {
    Services
  }

  /** `getServiceById`: the first service whose id is `id`, if any. */
  function GetServiceById(id: string): (r: Option<Service>)
    ensures r.Some? ==> r.value.id == id && r.value in Services
    ensures r.None? <==> forall j :: 0 <= j < |Services| ==> Services[j].id != id
    ensures r.Some? ==>
              exists i :: 0 <= i < |Services| && Services[i] == r.value &&
                          forall j :: 0 <= j < i ==> Services[j].id != id
  {
    JsArray.Find(GetAllServices(), (service: Service) => service.id == id)
  }

  /** `isValidService`: exactly the four ids are valid, and a valid id is one
      the lookup finds. */
  function IsValidService(id: string): (r: bool)
    ensures r <==> GetServiceById(id).Some?
    ensures r <==> id in ServiceIds
  {
    var p := (service: Service) => service.id == id;
    JsArray.AnyIffFind(Services, p);
    assert forall j :: 0 <= j < |Services| ==> Services[j].id == ServiceIds[j];
    assert id in ServiceIds ==> exists j :: 0 <= j < |Services| && p(Services[j]);
    JsArray.Any(Services, p)
  }

  /** The ids are pairwise distinct. */
  lemma ServiceIdsDistinct()
    ensures JsArray.NoDup(ServiceIds)
  {
  }

  /** Because the ids are distinct, each service is what its own id finds. */
  lemma LookupOwnId(i: nat)
    requires i < |Services|
    ensures GetServiceById(Services[i].id) == Some(Services[i])
  {
    ServiceIdsDistinct();
    assert forall j :: 0 <= j < |Services| ==> Services[j].id == ServiceIds[j];
  }
}
