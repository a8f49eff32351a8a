/**
 * The group intermediary (internal/persistence/intermediaries/group.go):
 * its filter table and its conversion to and from the REST group, which
 * leaves the group's name out.
 */
module IntermediaryGroup {
  import opened Common
  import opened QueryFilters
  import opened FilterTranslation
  import RestModels
  import IntermediaryGroupCapability
  import IntermediaryDevice

  datatype GroupIntermediary = GroupIntermediary(
    id: int,
    bridgeIdentifier: string,
    bridgeKey: string,
    capabilities: seq<IntermediaryGroupCapability.GroupCapabilityIntermediary>)

  const GroupFilters: FilterTable := map[
    "bridge-identifier" := map["eq" := IntermediaryDevice.Equals("bridgeIdentifier")],
    "id" := map["eq" := IntermediaryDevice.Equals("id")]
  ]

  /** The group table offers the same filters as the device table. */
  lemma GroupFiltersLikeDeviceFilters(filters: seq<Filter>)
    ensures Translation(filters, GroupFilters) == Translation(filters, IntermediaryDevice.DeviceFilters)
  {
    assert GroupFilters == IntermediaryDevice.DeviceFilters;
  }

  /** GroupIntermediary.ToRestModel; the REST name is left empty. */
  function ToRestModel(g: GroupIntermediary): (r: RestModels.Group)
    ensures r.id == g.id && r.bridgeIdentifier == g.bridgeIdentifier && r.bridgeKey == g.bridgeKey
    ensures r.name == ""
    ensures |r.capabilities| == |g.capabilities|
    ensures forall i :: 0 <= i < |g.capabilities| ==> r.capabilities[i].name == g.capabilities[i].name
  {
    RestModels.Group(g.id, "", g.bridgeKey, g.bridgeIdentifier,
                     IntermediaryGroupCapability.ListToRestModel(g.capabilities))
  }

  /** GroupIntermediaryFromRest; the REST name is dropped. */
  function FromRest(group: RestModels.Group): (r: GroupIntermediary)
    ensures r.id == group.id && r.bridgeIdentifier == group.bridgeIdentifier && r.bridgeKey == group.bridgeKey
    ensures |r.capabilities| == |group.capabilities|
    ensures forall i :: 0 <= i < |group.capabilities| ==>
              r.capabilities[i].name == group.capabilities[i].name && r.capabilities[i].groupId == ""
  {
    GroupIntermediary(group.id, group.bridgeIdentifier, group.bridgeKey,
                      IntermediaryGroupCapability.ListFromRest(group.capabilities))
  }

  /** A REST group comes back from the intermediary with everything but its name. */
  lemma RestRoundTrip(group: RestModels.Group)
    ensures ToRestModel(FromRest(group)) == group.(name := "")
  {
    IntermediaryGroupCapability.ListRestRoundTrip(group.capabilities);
  }
}
