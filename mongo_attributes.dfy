/**
 * Device attributes as the Mongo store keeps them, one record per device
 * and attribute name (database/models/deviceattribute.go).
 */
module MongoAttributes {
  import opened Common
  import opened StoreTemplates
  import MongoStates

  datatype MongoDeviceAttribute = MongoDeviceAttribute(deviceId: string, attributeName: string,
                                                       attributeState: MongoStates.AttributeState)

  /** ConvertToUpdate: the update document `{"$set": attribute}`, the record unchanged under its one key. */
  function ConvertToUpdate(a: MongoDeviceAttribute): (u: map<string, MongoDeviceAttribute>)
    ensures u.Keys == {"$set"} && u["$set"] == a
  {
    map["$set" := a]
  }

  /** Distinct attributes give distinct updates: the update loses nothing. */
  lemma UpdateDeterminesAttribute(a: MongoDeviceAttribute, b: MongoDeviceAttribute)
    ensures ConvertToUpdate(a) == ConvertToUpdate(b) <==> a == b
  {
    if ConvertToUpdate(a) == ConvertToUpdate(b) {
      assert ConvertToUpdate(a)["$set"] == ConvertToUpdate(b)["$set"];
    }
  }

  /** The record ExtractAttributeModelsFromAPIDeviceModel builds for the attribute `name`. */
  function AttributeOf(device: Device, name: string): (a: MongoDeviceAttribute)
    requires name in device.attributes
  {
    MongoDeviceAttribute(device.identifier, name, MongoStates.NewFromApi(device.attributes[name]))
  }

  /** The records extracted when the device's attribute names are visited in `order`. */
  function ExtractedFrom(device: Device, order: seq<string>): (r: seq<MongoDeviceAttribute>)
    requires forall i :: 0 <= i < |order| ==> order[i] in device.attributes
    ensures |r| == |order|
    ensures forall i :: 0 <= i < |order| ==> r[i] == AttributeOf(device, order[i])
  {
    seq(|order|, i requires 0 <= i < |order| => AttributeOf(device, order[i]))
  }

  /**
   * ExtractAttributeModelsFromAPIDeviceModel: one record per attribute of the
   * device, in the map's visiting order, each carrying the device's
   * identifier, the attribute's name and its state copied unchanged; so
   * there are as many records as attributes and their names are distinct.
   */
  method ExtractAttributeModels(device: Device) returns (attributes: seq<MongoDeviceAttribute>, ghost order: seq<string>)
    ensures IsEnumeration(order, device.attributes.Keys)
    ensures attributes == ExtractedFrom(device, order)
    ensures |attributes| == |device.attributes|
    ensures forall i :: 0 <= i < |attributes| ==> attributes[i].deviceId == device.identifier
    ensures forall i, j :: 0 <= i < j < |attributes| ==> attributes[i].attributeName != attributes[j].attributeName
    ensures forall name :: name in device.attributes ==>
              exists i :: 0 <= i < |attributes| && attributes[i].attributeName == name
                          && MongoStates.ConvertToApi(attributes[i].attributeState) == device.attributes[name]
  {
    attributes, order := EnumerateMap(device.attributes,
      (name, state) => MongoDeviceAttribute(device.identifier, name, MongoStates.NewFromApi(state)));
    forall name | name in device.attributes
      ensures exists i :: 0 <= i < |attributes| && attributes[i].attributeName == name
                          && MongoStates.ConvertToApi(attributes[i].attributeState) == device.attributes[name]
    {
      var i :| 0 <= i < |order| && order[i] == name;
      MongoStates.ApiRoundTrip(device.attributes[name]);
      assert attributes[i].attributeName == name;
    }
  }
}
