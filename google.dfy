/** The response handling of the Google Maps wrapper: the status check every
    call makes, the reverse-geocode address selection, the directions leg
    read and the time-zone offset sum. The HTTP client, the request building
    and the trace logging are outside the model; each operation takes the
    response's data as its input. */
module Google {
  import opened Wrappers

  datatype AddressComponent = AddressComponent(types: seq<string>, longName: string, shortName: string)

  datatype GeocodeResult = GeocodeResult(
    types: seq<string>,
    formattedAddress: string,
    addressComponents: seq<AddressComponent>)

  datatype ReverseGeocodeOutput = ReverseGeocodeOutput(
    address: Option<string>,
    city: Option<string>,
    country: Option<string>,
    province: Option<string>)

  datatype RouteLeg = RouteLeg(startAddress: string, endAddress: string, distance: int, duration: int)

  datatype Route = Route(legs: seq<RouteLeg>)

  datatype DirectionsOutput = DirectionsOutput(
    addressFrom: string,
    addressTo: string,
    routeMeters: int,
    routeSeconds: int)

  datatype TimezoneOutput = TimezoneOutput(id: string, offsetSeconds: int)

  const OK := "OK"
  const NotOk := JsError("response.data.status !== Status.OK")

  /** `Array.prototype.find`, by position: the first index whose element
      satisfies `p`. */
  function FindIndex<T>(s: seq<T>, p: T -> bool): (r: Option<nat>)
    ensures r.Some? ==> r.value < |s| && p(s[r.value]) && forall k :: 0 <= k < r.value ==> !p(s[k])
    ensures r.None? <==> forall k :: 0 <= k < |s| ==> !p(s[k])
  {
    if |s| == 0 then None
    else if p(s[0]) then Some(0)
    else
      match FindIndex(s[1..], p)
      case None => None
      case Some(i) => Some(i + 1)
  }

  /** `s.find(p)` */
  function Find<T>(s: seq<T>, p: T -> bool): Option<T> {
    match FindIndex(s, p)
    case None => None
    case Some(i) => Some(s[i])
  }

  /** `reverseGeocode_getGeocodeResult`: the first result of the given type. */
  function GetGeocodeResult(results: seq<GeocodeResult>, addressType: string): Option<GeocodeResult> {
    Find(results, (r: GeocodeResult) => addressType in r.types)
  }

  /** `reverseGeocode_getAddressComponent`: the first component of the given
      type within the first result of that type; the other results are not
      searched. */
  function GetAddressComponent(results: seq<GeocodeResult>, addressType: string): Option<AddressComponent> {
    match GetGeocodeResult(results, addressType)
    case None => None
    case Some(r) => Find(r.addressComponents, (c: AddressComponent) => addressType in c.types)
  }

  /** `?.short_name` */
  function ShortName(c: Option<AddressComponent>): Option<string> {
    match c
    case None => None
    case Some(c) => Some(c.shortName)
  }

  /** `geocodeResult ?? fallback` */
  function OrElse<T>(first: Option<T>, fallback: Option<T>): Option<T> {
    if first.Some? then first else fallback
  }

  /** The output of `reverseGeocode` for a response with this status and
      these results. */
  function ReverseGeocode(status: string, results: seq<GeocodeResult>): (r: Result<ReverseGeocodeOutput>)
    ensures status != OK <==> r == Err(NotOk)
    ensures r.Ok? ==> r.value.city == ShortName(GetAddressComponent(results, "locality"))
    ensures r.Ok? ==> r.value.country == ShortName(GetAddressComponent(results, "country"))
    ensures r.Ok? ==> r.value.province == ShortName(GetAddressComponent(results, "administrative_area_level_1"))
  {
    if status != OK then Err(NotOk)
    else
      var addressResult :=
        OrElse(GetGeocodeResult(results, "street_address"),
          OrElse(GetGeocodeResult(results, "premise"), GetGeocodeResult(results, "route")));
      Ok(ReverseGeocodeOutput(
        address := if addressResult.Some? then Some(addressResult.value.formattedAddress) else None,
        city := ShortName(GetAddressComponent(results, "locality")),
        country := ShortName(GetAddressComponent(results, "country")),
        province := ShortName(GetAddressComponent(results, "administrative_area_level_1"))))
  }

  /** `GetGeocodeResult` returns the first result of the type, or nothing when
      no result has it. */
  lemma GetGeocodeResultIsFirst(results: seq<GeocodeResult>, addressType: string)
    ensures GetGeocodeResult(results, addressType).None? <==>
      forall k :: 0 <= k < |results| ==> addressType !in results[k].types
    ensures GetGeocodeResult(results, addressType).Some? ==>
      exists i :: 0 <= i < |results| && GetGeocodeResult(results, addressType) == Some(results[i])
        && addressType in results[i].types
        && forall k :: 0 <= k < i ==> addressType !in results[k].types
  {
    var i := FindIndex(results, (r: GeocodeResult) => addressType in r.types);
    if i.Some? {
      assert GetGeocodeResult(results, addressType) == Some(results[i.value]);
    }
  }

  /** The address is the formatted address of the first street address;
      failing that of the first premise; failing that of the first route;
      otherwise undefined. */
  lemma AddressFallback(results: seq<GeocodeResult>)
    ensures var out := ReverseGeocode(OK, results).value;
      && (HasType(results, "street_address") ==>
            out.address == Some(FirstOfType(results, "street_address").formattedAddress))
      && (!HasType(results, "street_address") && HasType(results, "premise") ==>
            out.address == Some(FirstOfType(results, "premise").formattedAddress))
      && (!HasType(results, "street_address") && !HasType(results, "premise") && HasType(results, "route") ==>
            out.address == Some(FirstOfType(results, "route").formattedAddress))
      && (!HasType(results, "street_address") && !HasType(results, "premise") && !HasType(results, "route") ==>
            out.address.None?)
  {
    GetGeocodeResultIsFirst(results, "street_address");
    GetGeocodeResultIsFirst(results, "premise");
    GetGeocodeResultIsFirst(results, "route");
  }

  /** Some result has the type. */
  predicate HasType(results: seq<GeocodeResult>, addressType: string) {
    exists k :: 0 <= k < |results| && addressType in results[k].types
  }

  /** The first result of the type. */
  function FirstOfType(results: seq<GeocodeResult>, addressType: string): (r: GeocodeResult)
    requires HasType(results, addressType)
    ensures r in results && addressType in r.types
  {
    var i := FindIndex(results, (g: GeocodeResult) => addressType in g.types);
    results[i.value]
  }

  /** City, country and province are short names of components found in the
      first result of the matching type only: a component of that type that
      appears only in a later result is not found. */
  lemma ComponentFromFirstMatchingResultOnly(first: GeocodeResult, later: seq<GeocodeResult>, addressType: string)
    requires addressType in first.types
    requires forall k :: 0 <= k < |first.addressComponents| ==> addressType !in first.addressComponents[k].types
    ensures GetAddressComponent([first] + later, addressType).None?
  {
    var results := [first] + later;
    assert results[0] == first;
  }

  /** A component found for a type is the first component of that type in
      the first result of that type; none is found exactly when no result
      has the type or that first result has no component of it. */
  lemma AddressComponentIsFirstInFirstResult(results: seq<GeocodeResult>, addressType: string)
    ensures GetAddressComponent(results, addressType).None? <==>
      (!HasType(results, addressType) ||
       forall j :: 0 <= j < |FirstOfType(results, addressType).addressComponents| ==>
         addressType !in FirstOfType(results, addressType).addressComponents[j].types)
    ensures GetAddressComponent(results, addressType).Some? ==>
      HasType(results, addressType) &&
      var components := FirstOfType(results, addressType).addressComponents;
      exists j :: 0 <= j < |components| && GetAddressComponent(results, addressType) == Some(components[j])
        && addressType in components[j].types
        && forall k :: 0 <= k < j ==> addressType !in components[k].types
  {
    GetGeocodeResultIsFirst(results, addressType);
    if HasType(results, addressType) {
      var g := FirstOfType(results, addressType);
      assert GetGeocodeResult(results, addressType) == Some(g);
      var j := FindIndex(g.addressComponents, (c: AddressComponent) => addressType in c.types);
      if j.Some? {
        assert GetAddressComponent(results, addressType) == Some(g.addressComponents[j.value]);
      }
    }
  }

  /** `directions`: the status check, then `routes[0].legs[0]`; a missing
      route or leg makes the property reads throw a `TypeError`. */
  function Directions(status: string, routes: seq<Route>): (r: Result<DirectionsOutput>)
    ensures status != OK ==> r == Err(NotOk)
    ensures r.Ok? <==> status == OK && |routes| > 0 && |routes[0].legs| > 0
    ensures r.Ok? ==>
      var leg := routes[0].legs[0];
      r.value == DirectionsOutput(leg.startAddress, leg.endAddress, leg.distance, leg.duration)
  {
    if status != OK then Err(NotOk)
    else if |routes| == 0 then Err(JsError("Cannot read properties of undefined (reading 'legs')"))
    else if |routes[0].legs| == 0 then Err(JsError("Cannot read properties of undefined (reading 'start_address')"))
    else
      var leg := routes[0].legs[0];
      Ok(DirectionsOutput(leg.startAddress, leg.endAddress, leg.distance, leg.duration))
  }

  /** `timezone`: the status check, then the zone id and the total offset,
      the raw offset plus the daylight-saving offset. */
  function Timezone(status: string, timeZoneId: string, rawOffset: int, dstOffset: int): (r: Result<TimezoneOutput>)
    ensures status != OK <==> r == Err(NotOk)
    ensures r.Ok? ==> r.value.id == timeZoneId && r.value.offsetSeconds == rawOffset + dstOffset
  {
    if status != OK then Err(NotOk)
    else Ok(TimezoneOutput(timeZoneId, rawOffset + dstOffset))
  }
}
