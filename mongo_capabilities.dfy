/**
 * Device capabilities as the Mongo store keeps them
 * (database/models/capability.go): their conversion to the template
 * capability and to an update document, their extraction from a device,
 * and the reduction of many sightings to the most recent one per name.
 */
module MongoCapabilities {
  import opened Common
  import opened StoreTemplates
  import opened Bson
  import MongoBridges

  datatype MongoDeviceCapability = MongoDeviceCapability(deviceId: string, capabilityName: string,
                                                         capabilityBridgeKey: string, capabilityBridgeUri: string,
                                                         lastSeen: int)

  /** ConvertToAPICapability: only the time it was last seen. */
  function ConvertToApiCapability(c: MongoDeviceCapability): (r: Capability)
    ensures r.lastSeen == c.lastSeen
  {
    Capability(c.lastSeen)
  }

  /** Two records give the same template capability exactly when they were last seen at the same time. */
  lemma ApiCapabilityKeepsOnlyLastSeen(a: MongoDeviceCapability, b: MongoDeviceCapability)
    ensures ConvertToApiCapability(a) == ConvertToApiCapability(b) <==> a.lastSeen == b.lastSeen
  {
  }

  /**
   * ConvertToUpdate: `$set` of the four string fields under their stored
   * names, and lastSeen stamped by the server.
   */
  function ConvertToUpdate(c: MongoDeviceCapability): (u: FieldUpdate)
    ensures u.setFields.Keys == {"deviceId", "capabilityName", "capabilityBridgeKey", "bridgeURI"}
    ensures u.currentDate == StampLastSeen
  {
    FieldUpdate(map["deviceId" := c.deviceId, "capabilityName" := c.capabilityName,
                    "capabilityBridgeKey" := c.capabilityBridgeKey, "bridgeURI" := c.capabilityBridgeUri],
                StampLastSeen)
  }

  /** The record an update document leaves in the store when the server's clock reads `now`. */
  function CapabilityOfUpdate(u: FieldUpdate, now: int): Option<MongoDeviceCapability> {
    if "deviceId" in u.setFields && "capabilityName" in u.setFields && "capabilityBridgeKey" in u.setFields
       && "bridgeURI" in u.setFields && u.currentDate == StampLastSeen
    then Some(MongoDeviceCapability(u.setFields["deviceId"], u.setFields["capabilityName"],
                                    u.setFields["capabilityBridgeKey"], u.setFields["bridgeURI"], now))
    else None
  }

  /** The update stores every field of the record; lastSeen becomes the server's time. */
  lemma UpdateReadsBack(c: MongoDeviceCapability, now: int)
    ensures CapabilityOfUpdate(ConvertToUpdate(c), now) == Some(c.(lastSeen := now))
  {
  }

  /** The record ExtractCapabilityModelsFromAPIDeviceModel builds for the capability `name`. */
  function CapabilityOf(device: Device, bridge: MongoBridges.Bridge, name: string): MongoDeviceCapability {
    MongoDeviceCapability(device.identifier, name, bridge.identifier, bridge.uri, ZeroTime)
  }

  /**
   * ExtractCapabilityModelsFromAPIDeviceModel: one record per capability of
   * the device, in the map's visiting order, carrying the device's
   * identifier, the capability's name and the bridge's key and URI, and
   * the zero time; as many records as capabilities, with distinct names.
   */
  method ExtractCapabilityModels(device: Device, bridge: MongoBridges.Bridge)
    returns (capabilities: seq<MongoDeviceCapability>, ghost order: seq<string>)
    ensures IsEnumeration(order, device.capabilities.Keys)
    ensures capabilities == Mapped(order, name => CapabilityOf(device, bridge, name))
    ensures |capabilities| == |device.capabilities|
    ensures forall i, j :: 0 <= i < j < |capabilities| ==> capabilities[i].capabilityName != capabilities[j].capabilityName
    ensures forall name :: name in device.capabilities <==> exists i :: 0 <= i < |capabilities| && capabilities[i].capabilityName == name
  {
    capabilities, order := EnumerateMap(device.capabilities, (name, _) => CapabilityOf(device, bridge, name));
    forall name | name in device.capabilities
      ensures exists i :: 0 <= i < |capabilities| && capabilities[i].capabilityName == name
    {
      var i :| 0 <= i < |order| && order[i] == name;
      assert capabilities[i].capabilityName == name;
    }
  }

  // ---------------------------------------------------------------------
  // ReduceToMostRelevantCapabilities

  /** `capMap[name].LastSeen`, which is the zero time when the name is missing. */
  function LastSeenIn(m: map<string, MongoDeviceCapability>, name: string): int {
    if name in m then m[name].lastSeen else ZeroTime
  }

  /** The map filled by the reduction's first loop: a record replaces the entry of its name only if strictly later. */
  function Latest(caps: seq<MongoDeviceCapability>): map<string, MongoDeviceCapability> {
    if caps == [] then map[]
    else
      var m := Latest(caps[..|caps| - 1]);
      var c := caps[|caps| - 1];
      if c.lastSeen > LastSeenIn(m, c.capabilityName) then m[c.capabilityName := c] else m
  }

  /**
   * Position `j` holds the record that should represent its name: seen
   * after the zero time, no record of that name seen later, and every
   * earlier record of that name seen strictly earlier.
   */
  ghost predicate IsFirstLatest(caps: seq<MongoDeviceCapability>, j: int) {
    0 <= j < |caps| && caps[j].lastSeen > ZeroTime
    && (forall i :: 0 <= i < |caps| && caps[i].capabilityName == caps[j].capabilityName ==> caps[i].lastSeen <= caps[j].lastSeen)
    && (forall i :: 0 <= i < j && caps[i].capabilityName == caps[j].capabilityName ==> caps[i].lastSeen < caps[j].lastSeen)
  }

  /** `c` is the first latest record of its name in `caps`. */
  ghost predicate IsRepresentative(caps: seq<MongoDeviceCapability>, c: MongoDeviceCapability) {
    exists j :: IsFirstLatest(caps, j) && caps[j] == c
  }

  /** A name is kept exactly when some record of it was seen after the zero time. */
  lemma {:induction false} LatestKeys(caps: seq<MongoDeviceCapability>)
    ensures forall name :: name in Latest(caps) <==>
              exists i :: 0 <= i < |caps| && caps[i].capabilityName == name && caps[i].lastSeen > ZeroTime
  {
    if caps != [] {
      var init := caps[..|caps| - 1];
      var c := caps[|caps| - 1];
      LatestKeys(init);
      forall name | exists i :: 0 <= i < |caps| && caps[i].capabilityName == name && caps[i].lastSeen > ZeroTime
        ensures name in Latest(caps)
      {
        var i :| 0 <= i < |caps| && caps[i].capabilityName == name && caps[i].lastSeen > ZeroTime;
        if i < |init| {
          assert init[i] == caps[i];
          assert name in Latest(init);
        }
      }
      forall name | name in Latest(caps)
        ensures exists i :: 0 <= i < |caps| && caps[i].capabilityName == name && caps[i].lastSeen > ZeroTime
      {
        if name in Latest(init) {
          var i :| 0 <= i < |init| && init[i].capabilityName == name && init[i].lastSeen > ZeroTime;
          assert caps[i] == init[i];
        } else {
          assert name == c.capabilityName && c.lastSeen > ZeroTime;
        }
      }
    }
  }

  /** Every kept record is the first latest record of its name. */
  lemma {:induction false} LatestValues(caps: seq<MongoDeviceCapability>)
    ensures forall name :: name in Latest(caps) ==>
              Latest(caps)[name].capabilityName == name
              && exists j :: IsFirstLatest(caps, j) && caps[j] == Latest(caps)[name]
    decreases |caps|, 1
  {
    if caps != [] {
      var init := caps[..|caps| - 1];
      var c := caps[|caps| - 1];
      var m := Latest(init);
      LatestValues(init);
      forall name | name in Latest(caps)
        ensures Latest(caps)[name].capabilityName == name
                && exists j :: IsFirstLatest(caps, j) && caps[j] == Latest(caps)[name]
      {
        if c.lastSeen > LastSeenIn(m, c.capabilityName) && name == c.capabilityName {
          LastIsFirstLatest(caps);
        } else {
          var j :| IsFirstLatest(init, j) && init[j] == m[name];
          ExtendFirstLatest(caps, j);
        }
      }
    }
  }

  /** The last record, when the reduction takes it, is the first latest of its name. */
  lemma LastIsFirstLatest(caps: seq<MongoDeviceCapability>)
    requires caps != []
    requires caps[|caps| - 1].lastSeen > LastSeenIn(Latest(caps[..|caps| - 1]), caps[|caps| - 1].capabilityName)
    ensures IsFirstLatest(caps, |caps| - 1)
    decreases |caps|, 0
  {
    var init := caps[..|caps| - 1];
    var c := caps[|caps| - 1];
    var m := Latest(init);
    LatestKeys(init);
    LatestValues(init);
    forall i | 0 <= i < |caps| - 1 && caps[i].capabilityName == c.capabilityName
      ensures caps[i].lastSeen < c.lastSeen
    {
      assert init[i] == caps[i];
      if c.capabilityName in m {
        var j :| IsFirstLatest(init, j) && init[j] == m[c.capabilityName];
      }
    }
    if c.capabilityName in m {
      var j :| IsFirstLatest(init, j) && init[j] == m[c.capabilityName];
    }
  }

  /** A first latest record stays one when a record it is not beaten by is appended. */
  lemma ExtendFirstLatest(caps: seq<MongoDeviceCapability>, j: int)
    requires caps != []
    requires IsFirstLatest(caps[..|caps| - 1], j)
    requires var c := caps[|caps| - 1];
             c.capabilityName == caps[j].capabilityName ==> c.lastSeen <= caps[j].lastSeen
    ensures IsFirstLatest(caps, j)
  {
    var init := caps[..|caps| - 1];
    assert forall i :: 0 <= i < |init| ==> init[i] == caps[i];
  }

  /** At most one position of a name is its first latest record. */
  lemma FirstLatestUnique(caps: seq<MongoDeviceCapability>, i: int, j: int)
    requires IsFirstLatest(caps, i) && IsFirstLatest(caps, j)
    requires caps[i].capabilityName == caps[j].capabilityName
    ensures i == j
  {
  }

  /** The reduction keeps, for every name, exactly that name's first latest record. */
  lemma LatestKeepsFirstLatest(caps: seq<MongoDeviceCapability>, j: int)
    requires IsFirstLatest(caps, j)
    ensures caps[j].capabilityName in Latest(caps)
    ensures Latest(caps)[caps[j].capabilityName] == caps[j]
  {
    var name := caps[j].capabilityName;
    LatestKeys(caps);
    LatestValues(caps);
    var j' :| IsFirstLatest(caps, j') && caps[j'] == Latest(caps)[name];
    FirstLatestUnique(caps, j, j');
  }

  /** The names that some record was seen with after the zero time. */
  function SeenNames(caps: seq<MongoDeviceCapability>): set<string> {
    set j | 0 <= j < |caps| && caps[j].lastSeen > ZeroTime :: caps[j].capabilityName
  }

  function NamesOf(caps: seq<MongoDeviceCapability>): set<string> {
    set c | c in caps :: c.capabilityName
  }

  /** The records of the reduced map, listed in any visiting order, carry distinct names. */
  lemma ReducedDistinct(caps: seq<MongoDeviceCapability>, order: seq<string>, reduced: seq<MongoDeviceCapability>)
    requires IsEnumeration(order, Latest(caps).Keys)
    requires |reduced| == |order| && forall i :: 0 <= i < |order| ==> reduced[i] == Latest(caps)[order[i]]
    ensures forall i, k :: 0 <= i < k < |reduced| ==> reduced[i].capabilityName != reduced[k].capabilityName
  {
    LatestValues(caps);
    forall i, k | 0 <= i < k < |reduced| ensures reduced[i].capabilityName != reduced[k].capabilityName {
      assert reduced[i].capabilityName == order[i] && reduced[k].capabilityName == order[k];
    }
  }

  /** Every listed record is the first latest input record of its name. */
  lemma ReducedAreFirstLatest(caps: seq<MongoDeviceCapability>, order: seq<string>, reduced: seq<MongoDeviceCapability>)
    requires IsEnumeration(order, Latest(caps).Keys)
    requires |reduced| == |order| && forall i :: 0 <= i < |order| ==> reduced[i] == Latest(caps)[order[i]]
    ensures forall i :: 0 <= i < |reduced| ==> IsRepresentative(caps, reduced[i])
  {
    LatestValues(caps);
    forall i | 0 <= i < |reduced| ensures IsRepresentative(caps, reduced[i]) {
      var name := order[i];
      assert name in Latest(caps);
      assert reduced[i] == Latest(caps)[name];
      var j :| IsFirstLatest(caps, j) && caps[j] == Latest(caps)[name];
      assert caps[j] == reduced[i];
    }
  }

  /** Every name seen after the zero time has its first latest record listed. */
  lemma ReducedComplete(caps: seq<MongoDeviceCapability>, order: seq<string>, reduced: seq<MongoDeviceCapability>)
    requires IsEnumeration(order, Latest(caps).Keys)
    requires |reduced| == |order| && forall i :: 0 <= i < |order| ==> reduced[i] == Latest(caps)[order[i]]
    ensures forall j :: IsFirstLatest(caps, j) ==> caps[j] in reduced
  {
    forall j | IsFirstLatest(caps, j) ensures caps[j] in reduced {
      LatestKeepsFirstLatest(caps, j);
      var i :| 0 <= i < |order| && order[i] == caps[j].capabilityName;
      assert reduced[i] == caps[j];
    }
  }

  /** The listed names are exactly the names seen after the zero time. */
  lemma ReducedNames(caps: seq<MongoDeviceCapability>, order: seq<string>, reduced: seq<MongoDeviceCapability>)
    requires IsEnumeration(order, Latest(caps).Keys)
    requires |reduced| == |order| && forall i :: 0 <= i < |order| ==> reduced[i] == Latest(caps)[order[i]]
    ensures NamesOf(reduced) == SeenNames(caps)
  {
    LatestKeys(caps);
    LatestValues(caps);
    forall name | name in SeenNames(caps) ensures name in NamesOf(reduced) {
      var j :| 0 <= j < |caps| && caps[j].lastSeen > ZeroTime && caps[j].capabilityName == name;
      assert name in Latest(caps);
      var i :| 0 <= i < |order| && order[i] == name;
      assert reduced[i] in reduced;
    }
    forall name | name in NamesOf(reduced) ensures name in SeenNames(caps) {
      var c :| c in reduced && c.capabilityName == name;
      var i :| 0 <= i < |reduced| && reduced[i] == c;
      assert name == order[i];
    }
  }

  /**
   * The records of the reduced map listed in any visiting order: at most
   * one per name, each the first latest input record of its name, none
   * missing, and exactly the names seen after the zero time.
   */
  lemma ReducedRecords(caps: seq<MongoDeviceCapability>, order: seq<string>, reduced: seq<MongoDeviceCapability>)
    requires IsEnumeration(order, Latest(caps).Keys)
    requires |reduced| == |order| && forall i :: 0 <= i < |order| ==> reduced[i] == Latest(caps)[order[i]]
    ensures forall i, k :: 0 <= i < k < |reduced| ==> reduced[i].capabilityName != reduced[k].capabilityName
    ensures forall i :: 0 <= i < |reduced| ==> IsRepresentative(caps, reduced[i])
    ensures forall j :: IsFirstLatest(caps, j) ==> caps[j] in reduced
    ensures NamesOf(reduced) == SeenNames(caps)
  {
    ReducedDistinct(caps, order, reduced);
    ReducedComplete(caps, order, reduced);
    ReducedNames(caps, order, reduced);
    ReducedAreFirstLatest(caps, order, reduced);
  }

  /**
   * ReduceToMostRelevantCapabilities: the records of the reduced map, in
   * its visiting order. At most one record per name survives; each is an
   * input record, the first among the latest of its name; a record not seen
   * after the zero time never survives; and every name with a record seen
   * after the zero time is present.
   */
  method ReduceToMostRelevantCapabilities(caps: seq<MongoDeviceCapability>)
    returns (reduced: seq<MongoDeviceCapability>, ghost order: seq<string>)
    ensures IsEnumeration(order, Latest(caps).Keys)
    ensures |reduced| == |order| && forall i :: 0 <= i < |order| ==> reduced[i] == Latest(caps)[order[i]]
    ensures forall i, k :: 0 <= i < k < |reduced| ==> reduced[i].capabilityName != reduced[k].capabilityName
    ensures forall i :: 0 <= i < |reduced| ==> IsRepresentative(caps, reduced[i])
    ensures forall j :: IsFirstLatest(caps, j) ==> caps[j] in reduced
    ensures NamesOf(reduced) == SeenNames(caps)
  {
    var capMap: map<string, MongoDeviceCapability> := map[];
    for i := 0 to |caps|
      invariant capMap == Latest(caps[..i])
    {
      var c := caps[i];
      assert caps[..i + 1][..i] == caps[..i];
      var seen := if c.capabilityName in capMap then capMap[c.capabilityName].lastSeen else ZeroTime;
      if c.lastSeen > seen {
        capMap := capMap[c.capabilityName := c];
      }
    }
    assert caps[..|caps|] == caps;
    reduced, order := EnumerateMap(capMap, (_, c) => c);
    ReducedRecords(caps, order, reduced);
  }
}
