/**
 * The device intermediary (internal/persistence/intermediaries/device.go):
 * its filter table and its conversion to and from the REST device.
 * Attributes and capabilities are converted element by element.
 */
module IntermediaryDevice {
  import opened Common
  import opened QueryFilters
  import opened FilterTranslation
  import RestModels
  import IntermediaryAttribute
  import IntermediaryDeviceCapability

  datatype DeviceIntermediary = DeviceIntermediary(
    id: int,
    bridgeIdentifier: string,
    bridgeKey: string,
    attributes: seq<IntermediaryAttribute.AttributeIntermediary>,
    capabilities: seq<IntermediaryDeviceCapability.CapabilityIntermediary>,
    groupIds: seq<int>)

  /** An equality clause on `column` binding the raw value. */
  function Equals(column: string): string -> Fragment {
    value => Fragment(column + " = ?", [value])
  }

  const DeviceFilters: FilterTable := map[
    "bridge-identifier" := map["eq" := Equals("bridgeIdentifier")],
    "id" := map["eq" := Equals("id")]
  ]

  /** The table offers exactly bridge-identifier and id, each with `eq` only. */
  lemma DeviceFiltersOffered()
    ensures DeviceFilters.Keys == {"bridge-identifier", "id"}
    ensures forall k :: k in DeviceFilters ==> DeviceFilters[k].Keys == {"eq"}
  {
  }

  predicate IsDeviceFilter(f: Filter) {
    (f.key == "bridge-identifier" || f.key == "id") && f.operator == "eq"
  }

  /** The table allows a filter exactly when it is an `eq` on bridge-identifier or id. */
  lemma DeviceFiltersAllow(f: Filter)
    ensures Allowed(DeviceFilters, f) <==> IsDeviceFilter(f)
    ensures IsDeviceFilter(f) ==>
              FragmentOf(DeviceFilters, f)
              == Fragment(if f.key == "id" then "id = ?" else "bridgeIdentifier = ?", [f.value])
  {
  }

  /**
   * Translating with the device table succeeds exactly when every filter
   * is an `eq` on bridge-identifier or id; then each filter yields one
   * `column = ?` clause and its value is the one value bound for it.
   */
  lemma DeviceFilterTranslation(filters: seq<Filter>)
    ensures Translation(filters, DeviceFilters).Success? <==> forall i :: 0 <= i < |filters| ==> IsDeviceFilter(filters[i])
    ensures Translation(filters, DeviceFilters).Success? ==>
              var fr := Translation(filters, DeviceFilters).value;
              |fr.clauses| == |filters| && |fr.values| == |filters|
              && forall i :: 0 <= i < |filters| ==>
                   fr.clauses[i] == (if filters[i].key == "id" then "id = ?" else "bridgeIdentifier = ?")
                   && fr.values[i] == filters[i].value
  {
    forall f | true ensures Allowed(DeviceFilters, f) <==> IsDeviceFilter(f) {
      DeviceFiltersAllow(f);
    }
    TranslationSucceedsIff(filters, DeviceFilters);
    if Translation(filters, DeviceFilters).Success? {
      forall i | 0 <= i < |filters|
        ensures FragmentOf(DeviceFilters, filters[i])
                == Fragment(if filters[i].key == "id" then "id = ?" else "bridgeIdentifier = ?", [filters[i].value])
      {
        DeviceFiltersAllow(filters[i]);
      }
      TranslationClauses(filters, DeviceFilters);
      TranslationSingleValues(filters, DeviceFilters);
    }
  }

  /** DeviceIntermediary.ToRestModel */
  function ToRestModel(d: DeviceIntermediary): (r: RestModels.Device)
    ensures r.id == d.id && r.bridgeIdentifier == d.bridgeIdentifier && r.bridgeKey == d.bridgeKey
    ensures r.groupIds == d.groupIds
    ensures |r.attributes| == |d.attributes| && |r.capabilities| == |d.capabilities|
    ensures forall i :: 0 <= i < |d.attributes| ==> r.attributes[i] == IntermediaryAttribute.ToRestModel(d.attributes[i])
    ensures forall i :: 0 <= i < |d.capabilities| ==>
              r.capabilities[i] == IntermediaryDeviceCapability.ToRestModel(d.capabilities[i])
  {
    RestModels.Device(d.id, d.bridgeIdentifier, d.bridgeKey,
                      IntermediaryAttribute.ListToRestModel(d.attributes),
                      IntermediaryDeviceCapability.ListToRestModel(d.capabilities),
                      d.groupIds)
  }

  /** DeviceIntermediaryFromRest */
  function FromRest(device: RestModels.Device): (r: DeviceIntermediary)
    ensures r.id == device.id && r.bridgeIdentifier == device.bridgeIdentifier && r.bridgeKey == device.bridgeKey
    ensures r.groupIds == device.groupIds
    ensures |r.attributes| == |device.attributes| && |r.capabilities| == |device.capabilities|
    ensures forall i :: 0 <= i < |device.attributes| ==> r.attributes[i] == IntermediaryAttribute.FromRest(device.attributes[i])
    ensures forall i :: 0 <= i < |device.capabilities| ==>
              r.capabilities[i] == IntermediaryDeviceCapability.FromRest(device.capabilities[i])
  {
    DeviceIntermediary(device.id, device.bridgeIdentifier, device.bridgeKey,
                       IntermediaryAttribute.ListFromRest(device.attributes),
                       IntermediaryDeviceCapability.ListFromRest(device.capabilities),
                       device.groupIds)
  }

  /** A REST device survives the trip through the intermediary entirely. */
  lemma RestRoundTrip(device: RestModels.Device)
    ensures ToRestModel(FromRest(device)) == device
  {
    IntermediaryAttribute.ListRestRoundTrip(device.attributes);
    IntermediaryDeviceCapability.ListRestRoundTrip(device.capabilities);
  }
}
