/**
 * The location record and the client-side override store
 * (lib/location/location-context.tsx). The React provider keeps three
 * pieces of state and one persisted slot; here it is a class whose fields
 * are that state, with the browser's local storage as a map field, the
 * clock as a `now` parameter, and the success or failure of each storage
 * call as a boolean parameter.
 */
module LocationContext {
  import opened Wrappers

  /** A latitude or longitude. Floating point is not modelled: a coordinate is
      identified by the text it was read from. */
  datatype Coordinate = Coordinate(text: string)

  /** `LocationData`: optional geographic fields, whether the location was
      detected from the request, and when it was last updated. */
  datatype LocationData = LocationData(
    country: Option<string>,
    city: Option<string>,
    region: Option<string>,
    timezone: Option<string>,
    continent: Option<string>,
    latitude: Option<Coordinate>,
    longitude: Option<Coordinate>,
    isDetected: bool,
    lastUpdated: int)

  /** `DEFAULT_LOCATION` (and `{ ...DEFAULT_LOCATION, lastUpdated: now }`):
      nothing detected and no geographic field. */
  function DefaultLocation(now: int): (r: LocationData)
    ensures !r.isDetected && r.lastUpdated == now
    ensures r.country.None? && r.city.None? && r.region.None? && r.timezone.None? &&
            r.continent.None? && r.latitude.None? && r.longitude.None?
  {
    LocationData(None, None, None, None, None, None, None, false, now)
  }

  /** `Partial<LocationData>`: for each field, `None` when the key is absent,
      `Some(v)` when it is present with value `v` (which may itself be
      `undefined`, that is `None`). */
  datatype LocationPatch = LocationPatch(
    country: Option<Option<string>>,
    city: Option<Option<string>>,
    region: Option<Option<string>>,
    timezone: Option<Option<string>>,
    continent: Option<Option<string>>,
    latitude: Option<Option<Coordinate>>,
    longitude: Option<Option<Coordinate>>,
    isDetected: Option<bool>,
    lastUpdated: Option<int>)

  const EmptyPatch: LocationPatch := LocationPatch(None, None, None, None, None, None, None, None, None)

  /** One field of an object spread: the patch's value when its key is
      present, the old value otherwise. */
  function Spread<T>(prior: T, given: Option<T>): (r: T)
    ensures given.Some? ==> r == given.value
    ensures given.None? ==> r == prior
  {
    match given
    case Some(v) => v
    case None => prior
  }

  /** The record `overrideLocation` builds:
      `{ ...location, ...patch, isDetected: false, lastUpdated: now }`. */
  function Merge(l: LocationData, p: LocationPatch, now: int): (r: LocationData)
    ensures !r.isDetected && r.lastUpdated == now
    ensures p.country.Some? ==> r.country == p.country.value
    ensures p.country.None? ==> r.country == l.country
    ensures p.city.Some? ==> r.city == p.city.value
    ensures p.city.None? ==> r.city == l.city
    ensures p.region.Some? ==> r.region == p.region.value
    ensures p.region.None? ==> r.region == l.region
    ensures p.timezone.Some? ==> r.timezone == p.timezone.value
    ensures p.timezone.None? ==> r.timezone == l.timezone
    ensures p.continent.Some? ==> r.continent == p.continent.value
    ensures p.continent.None? ==> r.continent == l.continent
    ensures p.latitude.Some? ==> r.latitude == p.latitude.value
    ensures p.latitude.None? ==> r.latitude == l.latitude
    ensures p.longitude.Some? ==> r.longitude == p.longitude.value
    ensures p.longitude.None? ==> r.longitude == l.longitude
  {
    var spread := LocationData(
      Spread(l.country, p.country),
      Spread(l.city, p.city),
      Spread(l.region, p.region),
      Spread(l.timezone, p.timezone),
      Spread(l.continent, p.continent),
      Spread(l.latitude, p.latitude),
      Spread(l.longitude, p.longitude),
      Spread(l.isDetected, p.isDetected),
      Spread(l.lastUpdated, p.lastUpdated));
    spread.(isDetected := false, lastUpdated := now)
  }

  /** Spreading `p` and then `q` is spreading one patch whose keys are those
      of both, `q`'s value winning. */
  function Compose(p: LocationPatch, q: LocationPatch): LocationPatch {
    LocationPatch(
      if q.country.Some? then q.country else p.country,
      if q.city.Some? then q.city else p.city,
      if q.region.Some? then q.region else p.region,
      if q.timezone.Some? then q.timezone else p.timezone,
      if q.continent.Some? then q.continent else p.continent,
      if q.latitude.Some? then q.latitude else p.latitude,
      if q.longitude.Some? then q.longitude else p.longitude,
      if q.isDetected.Some? then q.isDetected else p.isDetected,
      if q.lastUpdated.Some? then q.lastUpdated else p.lastUpdated)
  }

  /** Two overrides in a row amount to one override with the combined patch
      and the later timestamp. */
  lemma MergeCompose(l: LocationData, p: LocationPatch, q: LocationPatch, t1: int, t2: int)
    ensures Merge(Merge(l, p, t1), q, t2) == Merge(l, Compose(p, q), t2)
  {
  }

  /** Repeating an override only refreshes the timestamp. */
  lemma MergeIdempotent(l: LocationData, p: LocationPatch, t1: int, t2: int)
    ensures Merge(Merge(l, p, t1), p, t2) == Merge(l, p, t2)
  {
    MergeCompose(l, p, p, t1, t2);
    assert Compose(p, p) == p;
  }

  /** An empty patch keeps every geographic field and only marks the record
      as not detected, stamped with `now`. */
  lemma MergeEmptyPatch(l: LocationData, now: int)
    ensures Merge(l, EmptyPatch, now) == l.(isDetected := false, lastUpdated := now)
  {
  }

  /** A patch that sets `isDetected` to `true` is overruled. */
  lemma MergeIgnoresDetectedFlag(l: LocationData, p: LocationPatch, now: int)
    ensures Merge(l, p.(isDetected := Some(true)), now) == Merge(l, p, now)
  {
  }

  /** What the browser's local storage holds under a key: the text that
      `JSON.stringify` made of a location record, or any other text. JSON
      text itself is not modelled; a serialised record parses back to the
      same record. */
  datatype Stored = Serialized(record: LocationData) | OtherText(text: string)

  /** `LOCATION_OVERRIDE_KEY`. */
  const OverrideKey: string := "location-override"

  /** The record the mount-time load applies, if any: storage must be
      readable, the key present, and its text non-empty and a serialised
      record. Empty text is skipped, and other text makes `JSON.parse`
      throw, which the load catches. */
  function SavedOverride(storage: map<string, Stored>, readable: bool): (r: Option<LocationData>)
    ensures r.Some? <==>
              readable && OverrideKey in storage && storage[OverrideKey].Serialized?
    ensures r.Some? ==> storage[OverrideKey] == Serialized(r.value)
  {
    if !readable || OverrideKey !in storage then None
    else match storage[OverrideKey]
      case Serialized(record) => Some(record)
      case OtherText(_) => None
  }

  /** `LocationProvider`: the current location, whether the mount-time load
      is still pending, whether an override is in force, and the persisted
      slot. */
  class LocationProvider {
    const initialLocation: LocationData
    var location: LocationData
    var isLoading: bool
    var hasOverride: bool
    var storage: map<string, Stored>

    /** Without an override the provider shows the initial location. Every
        method keeps this; the mount-time load relies on it to show the
        initial location when nothing is restored. */
    ghost predicate Valid()
      reads this
    {
      !hasOverride ==> location == initialLocation
    }

    /** The first render: the initial location, loading, no override, with
        whatever the browser has stored. */
    constructor(initial: LocationData, stored: map<string, Stored>)
      ensures Valid()
      ensures initialLocation == initial && location == initial
      ensures isLoading && !hasOverride && storage == stored
    {
      initialLocation := initial;
      location := initial;
      isLoading := true;
      hasOverride := false;
      storage := stored;
    }

    /** The mount effect: apply a saved override when there is one, and end
        loading whatever happens. Storage is only read. */
    method LoadSavedOverride(readable: bool)
      requires Valid()
      modifies this
      ensures Valid()
      ensures !isLoading && storage == old(storage)
      ensures SavedOverride(old(storage), readable).Some? ==>
                location == SavedOverride(old(storage), readable).value && hasOverride
      ensures SavedOverride(old(storage), readable).None? ==>
                location == old(location) && hasOverride == old(hasOverride)
      ensures SavedOverride(old(storage), readable).None? && !old(hasOverride) ==>
                location == initialLocation
    {
      var saved := SavedOverride(storage, readable);
      if saved.Some? {
        location := saved.value;
        hasOverride := true;
      }
      isLoading := false;
    }

    /** `overrideLocation`: merge the patch over the current location, mark
        it as not detected, stamp it, record the override and persist the
        new record; if storage refuses the write the in-memory override
        stands. */
    method OverrideLocation(patch: LocationPatch, now: int, writable: bool)
      requires Valid()
      modifies this
      ensures Valid()
      ensures location == Merge(old(location), patch, now)
      ensures hasOverride && isLoading == old(isLoading)
      ensures writable ==> storage == old(storage)[OverrideKey := Serialized(location)]
      ensures !writable ==> storage == old(storage)
    {
      var updatedLocation := Merge(location, patch, now);
      location := updatedLocation;
      hasOverride := true;
      if writable {
        storage := storage[OverrideKey := Serialized(updatedLocation)];
      }
    }

    /** `resetLocation`: back to the initial location with no override, and
        the persisted slot removed when storage allows it. Nothing about the
        earlier overrides remains in memory. */
    method ResetLocation(writable: bool)
      requires Valid()
      modifies this
      ensures Valid()
      ensures location == initialLocation && !hasOverride && isLoading == old(isLoading)
      ensures writable ==> storage == old(storage) - {OverrideKey} && OverrideKey !in storage
      ensures !writable ==> storage == old(storage)
    {
      location := initialLocation;
      hasOverride := false;
      if writable {
        storage := storage - {OverrideKey};
      }
    }
  }

  /** A persisted override survives a reload: a new provider mounted over
      the same storage shows the overridden location. After a reset, a new
      provider shows its own initial location. */
  method OverrideSurvivesReload(initial: LocationData, stored: map<string, Stored>,
                                patch: LocationPatch, now: int)
      returns (first: LocationProvider, second: LocationProvider)
    ensures fresh(first) && fresh(second) && first.Valid() && second.Valid()
    ensures second.location == first.location && second.hasOverride && !second.isLoading
    ensures first.location ==
              Merge(SavedOverride(stored, true).GetOr(initial), patch, now)
  {
    first := new LocationProvider(initial, stored);
    first.LoadSavedOverride(true);
    first.OverrideLocation(patch, now, true);
    second := new LocationProvider(initial, first.storage);
    second.LoadSavedOverride(true);
  }

  /** After a reset the persisted slot is gone, so a reload keeps the
      initial location. */
  method ResetSurvivesReload(initial: LocationData, stored: map<string, Stored>,
                             patch: LocationPatch, now: int)
      returns (first: LocationProvider, second: LocationProvider)
    ensures fresh(first) && fresh(second) && first.Valid() && second.Valid()
    ensures second.location == initial && !second.hasOverride && !second.isLoading
  {
    first := new LocationProvider(initial, stored);
    first.LoadSavedOverride(true);
    first.OverrideLocation(patch, now, true);
    first.ResetLocation(true);
    second := new LocationProvider(initial, first.storage);
    second.LoadSavedOverride(true);
  }
}
