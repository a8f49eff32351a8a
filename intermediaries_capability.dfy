/**
 * Device capabilities of the intermediary layer
 * (internal/persistence/intermediaries/deviceCapability.go): a name and the
 * owning device's id, of which only the name crosses to the REST model.
 */
module IntermediaryDeviceCapability {
  import opened Common
  import opened RestModels

  datatype CapabilityIntermediary = CapabilityIntermediary(deviceId: string, name: string)

  function ToRestModel(c: CapabilityIntermediary): (r: Capability)
    ensures r.name == c.name
  {
    Capability(c.name)
  }

  /** CapabilityIntermediaryFromRest: the name, and no device id. */
  function FromRest(cap: Capability): (r: CapabilityIntermediary)
    ensures r.name == cap.name && r.deviceId == ""
  {
    CapabilityIntermediary("", cap.name)
  }

  lemma RestRoundTrip(cap: Capability)
    ensures ToRestModel(FromRest(cap)) == cap
  {
  }

  /** An intermediary comes back unchanged exactly when it had no device id. */
  lemma IntermediaryRoundTrip(c: CapabilityIntermediary)
    ensures FromRest(ToRestModel(c)) == c <==> c.deviceId == ""
  {
  }

  function ListToRestModel(caps: seq<CapabilityIntermediary>): seq<Capability> {
    Mapped(caps, ToRestModel)
  }

  function ListFromRest(caps: seq<Capability>): seq<CapabilityIntermediary> {
    Mapped(caps, FromRest)
  }

  /** CapabilityIntermediaryList.ToRestModel */
  method ConvertListToRestModel(caps: seq<CapabilityIntermediary>) returns (restCaps: seq<Capability>)
    ensures restCaps == ListToRestModel(caps)
  {
    restCaps := ConvertEach(caps, ToRestModel);
  }

  /** CapabilityIntermediaryListFromRest */
  method ConvertListFromRest(caps: seq<Capability>) returns (intermediaries: seq<CapabilityIntermediary>)
    ensures intermediaries == ListFromRest(caps)
  {
    intermediaries := ConvertEach(caps, FromRest);
  }

  /** A REST capability list survives the trip through intermediaries, in length and order. */
  lemma ListRestRoundTrip(caps: seq<Capability>)
    ensures ListToRestModel(ListFromRest(caps)) == caps
  {
    MappedRoundTrip(caps, FromRest, ToRestModel);
  }
}

/**
 * Group capabilities of the intermediary layer
 * (internal/persistence/intermediaries/groupCapability.go).
 */
module IntermediaryGroupCapability {
  import opened Common
  import opened RestModels

  datatype GroupCapabilityIntermediary = GroupCapabilityIntermediary(groupId: string, name: string)

  function ToRestModel(c: GroupCapabilityIntermediary): (r: GroupCapability)
    ensures r.name == c.name
  {
    GroupCapability(c.name)
  }

  /** GroupCapabilityIntermediaryFromRest: the name, and no group id. */
  function FromRest(cap: GroupCapability): (r: GroupCapabilityIntermediary)
    ensures r.name == cap.name && r.groupId == ""
  {
    GroupCapabilityIntermediary("", cap.name)
  }

  lemma RestRoundTrip(cap: GroupCapability)
    ensures ToRestModel(FromRest(cap)) == cap
  {
  }

  /** An intermediary comes back unchanged exactly when it had no group id. */
  lemma IntermediaryRoundTrip(c: GroupCapabilityIntermediary)
    ensures FromRest(ToRestModel(c)) == c <==> c.groupId == ""
  {
  }

  function ListToRestModel(caps: seq<GroupCapabilityIntermediary>): seq<GroupCapability> {
    Mapped(caps, ToRestModel)
  }

  function ListFromRest(caps: seq<GroupCapability>): seq<GroupCapabilityIntermediary> {
    Mapped(caps, FromRest)
  }

  /** GroupCapabilityIntermediaryList.ToRestModel */
  method ConvertListToRestModel(caps: seq<GroupCapabilityIntermediary>) returns (restCaps: seq<GroupCapability>)
    ensures restCaps == ListToRestModel(caps)
  {
    restCaps := ConvertEach(caps, ToRestModel);
  }

  /** GroupCapabilityIntermediaryListFromRest */
  method ConvertListFromRest(caps: seq<GroupCapability>) returns (intermediaries: seq<GroupCapabilityIntermediary>)
    ensures intermediaries == ListFromRest(caps)
  {
    intermediaries := ConvertEach(caps, FromRest);
  }

  lemma ListRestRoundTrip(caps: seq<GroupCapability>)
    ensures ListToRestModel(ListFromRest(caps)) == caps
  {
    MappedRoundTrip(caps, FromRest, ToRestModel);
  }
}
