/**
 * Record shapes of the REST and ingest models (rest/models, ingestmodels,
 * restmodels). Floating-point numbers are modelled as reals and absent
 * pointers as `None`.
 */
module RestModels {
  import opened Common

  /**
   * An attribute as the REST API and the ingest API carry it
   * (rest/models/attribute.go, ingestmodels/attribute.go): a name and up to
   * three optional states.
   */
  datatype Attribute = Attribute(name: string, boolean: Option<bool>, numeric: Option<real>, text: Option<string>)

  /** A device capability as the REST model names it. */
  datatype Capability = Capability(name: string)

  /** A group capability as the REST model names it. */
  datatype GroupCapability = GroupCapability(name: string)

  /**
   * The REST device the intermediary converts to and from: its store id,
   * the bridge's identifier and key, attributes, capabilities and groups.
   */
  datatype Device = Device(id: int, bridgeIdentifier: string, bridgeKey: string,
                           attributes: seq<Attribute>, capabilities: seq<Capability>, groupIds: seq<int>)

  /** A REST group (rest/models/group.go). */
  datatype Group = Group(id: int, name: string, bridgeKey: string, bridgeIdentifier: string,
                         capabilities: seq<GroupCapability>)
}
