/** Groups of the internal Mongo store (internal/database/models/group.go). */
module InternalGroups {
  import opened Common
  import opened StoreTemplates
  import opened Bson

  datatype MongoGroup = MongoGroup(groupId: string, groupName: string, groupBridgeKey: string)

  /** ConvertToUpdate: `$set` of the three string fields, and a lastSeen stamp the record does not read. */
  function ConvertToUpdate(g: MongoGroup): (u: FieldUpdate)
    ensures u.setFields.Keys == {"groupId", "groupName", "groupBridgeKey"}
    ensures u.currentDate == StampLastSeen
  {
    FieldUpdate(map["groupId" := g.groupId, "groupName" := g.groupName, "groupBridgeKey" := g.groupBridgeKey],
                StampLastSeen)
  }

  function GroupOfUpdate(u: FieldUpdate): Option<MongoGroup> {
    if "groupId" in u.setFields && "groupName" in u.setFields && "groupBridgeKey" in u.setFields
    then Some(MongoGroup(u.setFields["groupId"], u.setFields["groupName"], u.setFields["groupBridgeKey"]))
    else None
  }

  /** The update stores every field of the group. */
  lemma UpdateReadsBack(g: MongoGroup)
    ensures GroupOfUpdate(ConvertToUpdate(g)) == Some(g)
  {
  }

  /** ConvertToAPI: identifier and name; the template group gets no capabilities. */
  function ConvertToApi(g: MongoGroup): (r: Group)
    ensures r.identifier == g.groupId && r.name == g.groupName && r.capabilities == map[]
  {
    Group(g.groupId, g.groupName, map[])
  }

  /** MongoGroupFromAPIModel: identifier, name and the given bridge key. */
  function MongoGroupFromApiModel(g: Group, bridgeKey: string): (r: MongoGroup)
    ensures r.groupId == g.identifier && r.groupName == g.name && r.groupBridgeKey == bridgeKey
  {
    MongoGroup(g.identifier, g.name, bridgeKey)
  }

  /** A template group comes back with its identifier and name, and loses its capabilities. */
  lemma ApiRoundTrip(g: Group, bridgeKey: string)
    ensures ConvertToApi(MongoGroupFromApiModel(g, bridgeKey)) == g.(capabilities := map[])
  {
  }

  /** A stored group comes back unchanged when its own bridge key is supplied. */
  lemma StoredRoundTrip(m: MongoGroup)
    ensures MongoGroupFromApiModel(ConvertToApi(m), m.groupBridgeKey) == m
  {
  }
}
