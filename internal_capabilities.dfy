/**
 * Device capabilities of the internal Mongo store
 * (internal/database/models/devicecapability.go). The store identifier is
 * stored with `omitempty`; name and bridge key always are.
 */
module InternalDeviceCapabilities {
  import opened Common
  import opened StoreTemplates
  import opened Bson

  datatype MongoDeviceCapability = MongoDeviceCapability(deviceStoreIdentifier: string, name: string,
                                                         bridgeKey: string, lastSeen: int)

  /** ConvertToAPICapability: only the time it was last seen. */
  function ConvertToApiCapability(c: MongoDeviceCapability): (r: Capability)
    ensures r.lastSeen == c.lastSeen
  {
    Capability(c.lastSeen)
  }

  lemma ApiCapabilityKeepsOnlyLastSeen(a: MongoDeviceCapability, b: MongoDeviceCapability)
    ensures ConvertToApiCapability(a) == ConvertToApiCapability(b) <==> a.lastSeen == b.lastSeen
  {
  }

  /** ConvertToUpdate: `$set` of the three string fields, and lastSeen stamped by the server. */
  function ConvertToUpdate(c: MongoDeviceCapability): (u: FieldUpdate)
    ensures u.setFields.Keys == {"storeDeviceIdentifier", "name", "bridgeKey"}
    ensures u.currentDate == StampLastSeen
  {
    FieldUpdate(map["storeDeviceIdentifier" := c.deviceStoreIdentifier, "name" := c.name, "bridgeKey" := c.bridgeKey],
                StampLastSeen)
  }

  /** The record an update document leaves in the store when the server's clock reads `now`. */
  function CapabilityOfUpdate(u: FieldUpdate, now: int): Option<MongoDeviceCapability> {
    if "storeDeviceIdentifier" in u.setFields && "name" in u.setFields && "bridgeKey" in u.setFields
       && u.currentDate == StampLastSeen
    then Some(MongoDeviceCapability(u.setFields["storeDeviceIdentifier"], u.setFields["name"], u.setFields["bridgeKey"], now))
    else None
  }

  lemma UpdateReadsBack(c: MongoDeviceCapability, now: int)
    ensures CapabilityOfUpdate(ConvertToUpdate(c), now) == Some(c.(lastSeen := now))
  {
  }

  /**
   * MongoDeviceCapabilityUniqueQuery: the store identifier always, and the
   * name after it only when the name is not empty.
   */
  function MongoDeviceCapabilityUniqueQuery(identifier: string, name: string): (q: seq<Element>)
    ensures 1 <= |q| <= 2
    ensures q[0] == Element("storeDeviceIdentifier", identifier)
    ensures |q| == 2 <==> name != ""
    ensures |q| == 2 ==> q[1] == Element("name", name)
  {
    var x := [Element("storeDeviceIdentifier", identifier)];
    if name != "" then x + [Element("name", name)] else x
  }

  /** UniqueQuery: the query for the record's own store identifier and name. */
  function UniqueQuery(c: MongoDeviceCapability): (q: seq<Element>)
    ensures q == MongoDeviceCapabilityUniqueQuery(c.deviceStoreIdentifier, c.name)
  {
    MongoDeviceCapabilityUniqueQuery(c.deviceStoreIdentifier, c.name)
  }

  /** The string fields of the stored document. */
  function Document(c: MongoDeviceCapability): map<string, string> {
    OmitEmpty("storeDeviceIdentifier", c.deviceStoreIdentifier) + map["name" := c.name, "bridgeKey" := c.bridgeKey]
  }

  /**
   * The query finds the stored capabilities of the given device: of the
   * given name, or of every name when the name is empty; and none when the
   * identifier is empty, since an empty identifier is not stored.
   */
  lemma UniqueQueryFinds(identifier: string, name: string, c: MongoDeviceCapability)
    ensures Matches(MongoDeviceCapabilityUniqueQuery(identifier, name), Document(c)) <==>
              identifier != "" && c.deviceStoreIdentifier == identifier && (name == "" || c.name == name)
  {
    var q := MongoDeviceCapabilityUniqueQuery(identifier, name);
    var d := Document(c);
    if Matches(q, d) {
      assert q[0].key in d && d[q[0].key] == q[0].value;
      if name != "" {
        assert q[1].key in d && d[q[1].key] == q[1].value;
      }
    }
  }

  /** The record ExtractCapabilityModelsFromAPIDeviceModel builds for the capability `name`. */
  function CapabilityOf(storeIdentifier: string, bridgeKey: string, name: string): MongoDeviceCapability {
    MongoDeviceCapability(storeIdentifier, name, bridgeKey, ZeroTime)
  }

  /**
   * ExtractCapabilityModelsFromAPIDeviceModel: one record per capability of
   * the device, in the map's visiting order, carrying the given store
   * identifier and bridge key; as many records as capabilities, with
   * distinct names.
   */
  method ExtractCapabilityModels(device: Device, storeIdentifier: string, bridgeKey: string)
    returns (capabilities: seq<MongoDeviceCapability>, ghost order: seq<string>)
    ensures IsEnumeration(order, device.capabilities.Keys)
    ensures capabilities == Mapped(order, name => CapabilityOf(storeIdentifier, bridgeKey, name))
    ensures |capabilities| == |device.capabilities|
    ensures forall i, j :: 0 <= i < j < |capabilities| ==> capabilities[i].name != capabilities[j].name
    ensures forall name :: name in device.capabilities <==> exists i :: 0 <= i < |capabilities| && capabilities[i].name == name
  {
    capabilities, order := EnumerateMap(device.capabilities, (name, _) => CapabilityOf(storeIdentifier, bridgeKey, name));
    forall name | name in device.capabilities
      ensures exists i :: 0 <= i < |capabilities| && capabilities[i].name == name
    {
      var i :| 0 <= i < |order| && order[i] == name;
      assert capabilities[i].name == name;
    }
  }
}

/** Group capabilities of the internal Mongo store (internal/database/models/groupcapability.go). */
module InternalGroupCapabilities {
  import opened Common
  import opened StoreTemplates
  import opened Bson

  datatype MongoGroupCapability = MongoGroupCapability(groupId: string, capabilityName: string,
                                                       groupBridgeKey: string, lastSeen: int)

  /** ConvertToAPICapability: only the time it was last seen. */
  function ConvertToApiCapability(c: MongoGroupCapability): (r: Capability)
    ensures r.lastSeen == c.lastSeen
  {
    Capability(c.lastSeen)
  }

  lemma ApiCapabilityKeepsOnlyLastSeen(a: MongoGroupCapability, b: MongoGroupCapability)
    ensures ConvertToApiCapability(a) == ConvertToApiCapability(b) <==> a.lastSeen == b.lastSeen
  {
  }

  /** ConvertToUpdate: `$set` of the three string fields, and lastSeen stamped by the server. */
  function ConvertToUpdate(c: MongoGroupCapability): (u: FieldUpdate)
    ensures u.setFields.Keys == {"groupId", "capabilityName", "groupBridgeKey"}
    ensures u.currentDate == StampLastSeen
  {
    FieldUpdate(map["groupId" := c.groupId, "capabilityName" := c.capabilityName, "groupBridgeKey" := c.groupBridgeKey],
                StampLastSeen)
  }

  function CapabilityOfUpdate(u: FieldUpdate, now: int): Option<MongoGroupCapability> {
    if "groupId" in u.setFields && "capabilityName" in u.setFields && "groupBridgeKey" in u.setFields
       && u.currentDate == StampLastSeen
    then Some(MongoGroupCapability(u.setFields["groupId"], u.setFields["capabilityName"], u.setFields["groupBridgeKey"], now))
    else None
  }

  lemma UpdateReadsBack(c: MongoGroupCapability, now: int)
    ensures CapabilityOfUpdate(ConvertToUpdate(c), now) == Some(c.(lastSeen := now))
  {
  }

  /** The record ExtractGroupCapabilityFromAPI builds for the capability `name`. */
  function CapabilityOf(group: Group, bridgeKey: string, name: string): MongoGroupCapability {
    MongoGroupCapability(group.identifier, name, bridgeKey, ZeroTime)
  }

  /**
   * ExtractGroupCapabilityFromAPI: one record per capability of the group,
   * in the map's visiting order, carrying the group's identifier and the
   * given bridge key; as many records as capabilities, with distinct names.
   */
  method ExtractGroupCapabilities(group: Group, bridgeKey: string)
    returns (capabilities: seq<MongoGroupCapability>, ghost order: seq<string>)
    ensures IsEnumeration(order, group.capabilities.Keys)
    ensures capabilities == Mapped(order, name => CapabilityOf(group, bridgeKey, name))
    ensures |capabilities| == |group.capabilities|
    ensures forall i, j :: 0 <= i < j < |capabilities| ==> capabilities[i].capabilityName != capabilities[j].capabilityName
    ensures forall name :: name in group.capabilities <==> exists i :: 0 <= i < |capabilities| && capabilities[i].capabilityName == name
  {
    capabilities, order := EnumerateMap(group.capabilities, (name, _) => CapabilityOf(group, bridgeKey, name));
    forall name | name in group.capabilities
      ensures exists i :: 0 <= i < |capabilities| && capabilities[i].capabilityName == name
    {
      var i :| 0 <= i < |order| && order[i] == name;
      assert capabilities[i].capabilityName == name;
    }
  }
}
