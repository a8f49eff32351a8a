/**
 * Turning stored attribute records back into template devices
 * (database/models/device.go; internal/database/models/device.go repeats the
 * code but names record fields its own package does not declare, so it is
 * modelled here over this record): one device from the records of a single
 * device, and a map of devices from the records of many.
 */
module MongoDevices {
  import opened Common
  import opened StoreTemplates
  import opened MongoAttributes
  import MongoStates

  const EmptyMessage := "singleDeviceAttributes is empty"
  const MismatchMessage := "deviceIds do not match"

  function DeviceIdOf(a: MongoDeviceAttribute): string { a.deviceId }
  function NameOf(a: MongoDeviceAttribute): string { a.attributeName }
  function ApiStateOf(a: MongoDeviceAttribute): AttributeState { MongoStates.ConvertToApi(a.attributeState) }

  /** The attribute map filled from `attrs` in order: a later record of the same name overwrites. */
  function AttributeMap(attrs: seq<MongoDeviceAttribute>): map<string, AttributeState> {
    LastWins(attrs, NameOf, ApiStateOf)
  }

  /** The position of the first record whose device id is not `id` (|attrs| when there is none). */
  function FirstMismatch(attrs: seq<MongoDeviceAttribute>, id: string): (j: nat)
    ensures j <= |attrs|
    ensures forall i :: 0 <= i < j ==> attrs[i].deviceId == id
    ensures j < |attrs| ==> attrs[j].deviceId != id
  {
    if attrs == [] || attrs[0].deviceId != id then 0 else 1 + FirstMismatch(attrs[1..], id)
  }

  /** The two facts the ensures of FirstMismatch state determine it. */
  lemma {:induction false} FirstMismatchAt(attrs: seq<MongoDeviceAttribute>, id: string, j: nat)
    requires j <= |attrs|
    requires forall i :: 0 <= i < j ==> attrs[i].deviceId == id
    requires j < |attrs| ==> attrs[j].deviceId != id
    ensures FirstMismatch(attrs, id) == j
  {
    if j > 0 {
      FirstMismatchAt(attrs[1..], id, j - 1);
    }
  }

  /**
   * What ConvertAttributesToAPIDevice returns: an error for no records;
   * otherwise the device of the first record's id holding the attributes
   * read before the first record of another device, with an error when
   * there is such a record.
   */
  function Conversion(attrs: seq<MongoDeviceAttribute>): (Device, Option<string>) {
    if attrs == [] then (EmptyDevice, Some(EmptyMessage))
    else
      var id := attrs[0].deviceId;
      var j := FirstMismatch(attrs, id);
      (Device(id, AttributeMap(attrs[..j]), map[]), if j < |attrs| then Some(MismatchMessage) else None)
  }

  /** ConvertAttributesToAPIDevice */
  method ConvertAttributesToApiDevice(attrs: seq<MongoDeviceAttribute>) returns (device: Device, err: Option<string>)
    ensures (device, err) == Conversion(attrs)
  {
    if |attrs| == 0 {
      return EmptyDevice, Some(EmptyMessage);
    }
    var deviceId := attrs[0].deviceId;
    device := Device(deviceId, map[], map[]);
    for i := 0 to |attrs|
      invariant forall k :: 0 <= k < i ==> attrs[k].deviceId == deviceId
      invariant device == Device(deviceId, AttributeMap(attrs[..i]), map[])
    {
      if attrs[i].deviceId != deviceId {
        FirstMismatchAt(attrs, deviceId, i);
        return device, Some(MismatchMessage);
      }
      assert attrs[..i + 1][..i] == attrs[..i];
      device := device.(attributes := device.attributes[attrs[i].attributeName := MongoStates.ConvertToApi(attrs[i].attributeState)]);
    }
    FirstMismatchAt(attrs, deviceId, |attrs|);
    assert attrs[..|attrs|] == attrs;
    err := None;
  }

  /**
   * The conversion fails exactly for no records or for records of more
   * than one device, with the message for each case.
   */
  lemma ConversionFails(attrs: seq<MongoDeviceAttribute>)
    ensures Conversion(attrs).1.None? <==> attrs != [] && forall i :: 0 <= i < |attrs| ==> attrs[i].deviceId == attrs[0].deviceId
    ensures attrs == [] ==> Conversion(attrs) == (EmptyDevice, Some(EmptyMessage))
    ensures attrs != [] && (exists i :: 0 <= i < |attrs| && attrs[i].deviceId != attrs[0].deviceId)
            ==> Conversion(attrs).1 == Some(MismatchMessage)
  {
    if attrs != [] && forall i :: 0 <= i < |attrs| ==> attrs[i].deviceId == attrs[0].deviceId {
      FirstMismatchAt(attrs, attrs[0].deviceId, |attrs|);
    }
  }

  /**
   * A successful conversion yields the common device id, no capabilities,
   * and one attribute per distinct name holding the state of the last
   * record of that name.
   */
  lemma ConversionSucceeds(attrs: seq<MongoDeviceAttribute>)
    requires attrs != [] && forall i :: 0 <= i < |attrs| ==> attrs[i].deviceId == attrs[0].deviceId
    ensures Conversion(attrs).1 == None
    ensures Conversion(attrs).0.identifier == attrs[0].deviceId
    ensures Conversion(attrs).0.capabilities == map[]
    ensures Conversion(attrs).0.attributes.Keys == set a | a in attrs :: a.attributeName
    ensures forall name :: name in Conversion(attrs).0.attributes ==>
              exists j :: 0 <= j < |attrs| && attrs[j].attributeName == name
                          && Conversion(attrs).0.attributes[name] == MongoStates.ConvertToApi(attrs[j].attributeState)
                          && forall i :: j < i < |attrs| ==> attrs[i].attributeName != name
  {
    FirstMismatchAt(attrs, attrs[0].deviceId, |attrs|);
    assert attrs[..|attrs|] == attrs;
    LastWinsKeys(attrs, NameOf, ApiStateOf);
    forall name | name in AttributeMap(attrs)
      ensures exists j :: 0 <= j < |attrs| && attrs[j].attributeName == name
                          && AttributeMap(attrs)[name] == MongoStates.ConvertToApi(attrs[j].attributeState)
                          && forall i :: j < i < |attrs| ==> attrs[i].attributeName != name
    {
      LastWinsValue(attrs, NameOf, ApiStateOf, name);
    }
  }

  /**
   * After a mismatch the partly filled device is still returned: it holds
   * the attributes of the records before the first foreign one.
   */
  lemma MismatchKeepsPrefix(attrs: seq<MongoDeviceAttribute>, j: nat)
    requires 0 < j < |attrs|
    requires forall i :: 0 <= i < j ==> attrs[i].deviceId == attrs[0].deviceId
    requires attrs[j].deviceId != attrs[0].deviceId
    ensures Conversion(attrs).1 == Some(MismatchMessage)
    ensures Conversion(attrs).0 == Device(attrs[0].deviceId, AttributeMap(attrs[..j]), map[])
  {
    FirstMismatchAt(attrs, attrs[0].deviceId, j);
  }

  /** The names of the extracted records are the device's attribute names. */
  lemma ExtractedAttributeNames(device: Device, order: seq<string>)
    requires IsEnumeration(order, device.attributes.Keys)
    ensures AttributeMap(ExtractedFrom(device, order)).Keys == device.attributes.Keys
  {
    var attrs := ExtractedFrom(device, order);
    LastWinsKeys(attrs, NameOf, ApiStateOf);
    forall name | name in device.attributes ensures name in KeySet(attrs, NameOf) {
      var i :| 0 <= i < |order| && order[i] == name;
      assert attrs[i] in attrs;
    }
  }

  /** The state refilled under a name is the device's state of that name. */
  lemma ExtractedAttributeState(device: Device, order: seq<string>, name: string)
    requires IsEnumeration(order, device.attributes.Keys)
    requires name in AttributeMap(ExtractedFrom(device, order))
    ensures name in device.attributes
    ensures AttributeMap(ExtractedFrom(device, order))[name] == device.attributes[name]
  {
    var attrs := ExtractedFrom(device, order);
    LastWinsValue(attrs, NameOf, ApiStateOf, name);
    var j :| 0 <= j < |attrs| && attrs[j].attributeName == name && AttributeMap(attrs)[name] == ApiStateOf(attrs[j]);
    assert order[j] == name;
    MongoStates.ApiRoundTrip(device.attributes[name]);
  }

  /** The attribute map refilled from a device's extracted records is the device's own. */
  lemma ExtractedAttributeMap(device: Device, order: seq<string>)
    requires IsEnumeration(order, device.attributes.Keys)
    ensures AttributeMap(ExtractedFrom(device, order)) == device.attributes
  {
    var m := AttributeMap(ExtractedFrom(device, order));
    ExtractedAttributeNames(device, order);
    forall name | name in m ensures m[name] == device.attributes[name] {
      ExtractedAttributeState(device, order, name);
    }
  }

  /**
   * Extracting a device's attribute records and converting them back gives
   * the device's identifier and attributes, in whatever order the names
   * were visited; a device without attributes cannot come back, since no
   * records are an error.
   */
  lemma ExtractRoundTrip(device: Device, order: seq<string>)
    requires IsEnumeration(order, device.attributes.Keys)
    ensures device.attributes != map[] ==>
              Conversion(ExtractedFrom(device, order)) == (Device(device.identifier, device.attributes, map[]), None)
    ensures device.attributes == map[] ==> Conversion(ExtractedFrom(device, order)).1 == Some(EmptyMessage)
  {
    var attrs := ExtractedFrom(device, order);
    EnumerationSize(order, device.attributes.Keys);
    if device.attributes != map[] {
      assert |attrs| > 0 by {
        var name :| name in device.attributes;
      }
      FirstMismatchAt(attrs, device.identifier, |attrs|);
      assert attrs[..|attrs|] == attrs;
      ExtractedAttributeMap(device, order);
    }
  }

  // ---------------------------------------------------------------------
  // CreateAPIDevicesFromAttributes

  /** The records grouped per device id, each group in input order. */
  function PerDevice(attrs: seq<MongoDeviceAttribute>): map<string, seq<MongoDeviceAttribute>> {
    GroupBy(attrs, DeviceIdOf)
  }

  /**
   * The devices and error after converting the groups of the ids in
   * `order`, one after the other, stopping after the first failure (whose
   * partly filled device is kept).
   */
  function Creation(attrs: seq<MongoDeviceAttribute>, order: seq<string>): (map<string, Device>, Option<string>)
    requires forall i :: 0 <= i < |order| ==> order[i] in PerDevice(attrs)
  {
    if order == [] then (map[], None)
    else
      var before := Creation(attrs, order[..|order| - 1]);
      if before.1.Some? then before
      else
        var id := order[|order| - 1];
        var converted := Conversion(PerDevice(attrs)[id]);
        (before.0[id := converted.0], converted.1)
  }

  /** The first loop of CreateAPIDevicesFromAttributes: each record appended to its device's group. */
  method GroupPerDevice(attrs: seq<MongoDeviceAttribute>) returns (perDevice: map<string, seq<MongoDeviceAttribute>>)
    ensures perDevice == PerDevice(attrs)
  {
    perDevice := map[];
    for i := 0 to |attrs|
      invariant perDevice == PerDevice(attrs[..i])
    {
      var id := attrs[i].deviceId;
      perDevice := perDevice[id := (if id in perDevice then perDevice[id] else []) + [attrs[i]]];
      assert attrs[..i + 1][..i] == attrs[..i];
    }
    assert attrs[..|attrs|] == attrs;
  }

  /** Converting one more group after a clean run adds that group's device and its error. */
  lemma CreationStep(attrs: seq<MongoDeviceAttribute>, order: seq<string>, id: string)
    requires forall i :: 0 <= i < |order| ==> order[i] in PerDevice(attrs)
    requires id in PerDevice(attrs) && Creation(attrs, order).1.None?
    ensures forall i :: 0 <= i < |order + [id]| ==> (order + [id])[i] in PerDevice(attrs)
    ensures Creation(attrs, order + [id])
            == (Creation(attrs, order).0[id := Conversion(PerDevice(attrs)[id]).0], Conversion(PerDevice(attrs)[id]).1)
  {
    assert (order + [id])[..|order|] == order;
  }

  /**
   * CreateAPIDevicesFromAttributes: the records are grouped per device id,
   * then the groups are converted in the map's visiting order `order`,
   * stopping at the first failed conversion. No conversion fails, so every
   * device id gets its device, built from exactly the records carrying
   * that id, and no error is returned.
   */
  method CreateApiDevicesFromAttributes(attrs: seq<MongoDeviceAttribute>)
    returns (apiDevices: map<string, Device>, err: Option<string>, ghost order: seq<string>)
    ensures IsEnumeration(order, PerDevice(attrs).Keys)
    ensures (apiDevices, err) == Creation(attrs, order)
    ensures err == None
    ensures apiDevices.Keys == set a | a in attrs :: a.deviceId
    ensures forall id :: id in apiDevices ==> apiDevices[id] == Device(id, AttributeMap(Where(attrs, DeviceIdOf, id)), map[])
  {
    var perDevice := GroupPerDevice(attrs);
    apiDevices, err, order := map[], None, [];
    var remaining := perDevice.Keys;
    while remaining != {} && err.None?
      invariant remaining <= perDevice.Keys
      invariant Distinct(order)
      invariant forall i :: 0 <= i < |order| ==> order[i] in perDevice && order[i] !in remaining
      invariant forall k :: k in perDevice ==> k in remaining || k in order
      invariant (apiDevices, err) == Creation(attrs, order)
      decreases remaining
    {
      var deviceId :| deviceId in remaining;
      var device, e := ConvertAttributesToApiDevice(perDevice[deviceId]);
      CreationStep(attrs, order, deviceId);
      order := order + [deviceId];
      remaining := remaining - {deviceId};
      apiDevices, err := apiDevices[deviceId := device], e;
    }
    CreationNeverFails(attrs, order);
    CreatedDevices(attrs, order);
  }

  /** Each group of PerDevice is non-empty, holds only its own device's records, and converts cleanly. */
  lemma GroupConverts(attrs: seq<MongoDeviceAttribute>, id: string)
    requires id in PerDevice(attrs)
    ensures PerDevice(attrs)[id] == Where(attrs, DeviceIdOf, id)
    ensures Conversion(PerDevice(attrs)[id]) == (Device(id, AttributeMap(Where(attrs, DeviceIdOf, id)), map[]), None)
  {
    GroupByIsWhere(attrs, DeviceIdOf);
    WhereMembers(attrs, DeviceIdOf, id);
    var group := Where(attrs, DeviceIdOf, id);
    var x :| x in attrs && x.deviceId == id;
    assert x in group;
    assert forall i :: 0 <= i < |group| ==> group[i] in group;
    ConversionSucceeds(group);
    assert group[..FirstMismatch(group, id)] == group;
  }

  /**
   * Converting the groups never fails, whatever the visiting order: every
   * visited device id maps to its own device, holding exactly the
   * attributes of the records that carry that id (the last record of a
   * name winning).
   */
  lemma {:induction false} CreationNeverFails(attrs: seq<MongoDeviceAttribute>, order: seq<string>)
    requires forall i :: 0 <= i < |order| ==> order[i] in PerDevice(attrs)
    ensures Creation(attrs, order).1 == None
    ensures Creation(attrs, order).0.Keys == set id | id in order
    ensures forall id :: id in Creation(attrs, order).0 ==>
              Creation(attrs, order).0[id] == Device(id, AttributeMap(Where(attrs, DeviceIdOf, id)), map[])
  {
    if order != [] {
      var init := order[..|order| - 1];
      var id := order[|order| - 1];
      CreationNeverFails(attrs, init);
      GroupConverts(attrs, id);
      assert order == init + [id];
    }
  }

  /**
   * The devices created from a list of records: one per distinct device
   * id (none for no records), each holding exactly its own records'
   * attributes, and never an error.
   */
  lemma CreatedDevices(attrs: seq<MongoDeviceAttribute>, order: seq<string>)
    requires IsEnumeration(order, PerDevice(attrs).Keys)
    ensures Creation(attrs, order).1 == None
    ensures Creation(attrs, order).0.Keys == set a | a in attrs :: a.deviceId
    ensures attrs == [] ==> Creation(attrs, order).0 == map[]
    ensures forall id :: id in Creation(attrs, order).0 ==>
              Creation(attrs, order).0[id].identifier == id
              && Creation(attrs, order).0[id].attributes == AttributeMap(Where(attrs, DeviceIdOf, id))
  {
    CreationNeverFails(attrs, order);
    GroupByIsWhere(attrs, DeviceIdOf);
    assert (set id | id in order) == PerDevice(attrs).Keys;
  }
}
