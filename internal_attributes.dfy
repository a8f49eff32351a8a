/**
 * Device attributes of the internal Mongo store
 * (internal/database/models/deviceattribute.go): the update document and
 * the filter that finds a stored attribute by device and name. Both
 * string fields are stored with `omitempty`, so an empty one is absent
 * from the stored document.
 */
module InternalAttributes {
  import opened Bson
  import MongoStates

  datatype MongoDeviceAttribute = MongoDeviceAttribute(deviceStoreIdentifier: string, name: string,
                                                       state: MongoStates.AttributeState)

  /** ConvertToUpdate: the update document `{"$set": attribute}`. */
  function ConvertToUpdate(a: MongoDeviceAttribute): (u: map<string, MongoDeviceAttribute>)
    ensures u.Keys == {"$set"} && u["$set"] == a
  {
    map["$set" := a]
  }

  lemma UpdateDeterminesAttribute(a: MongoDeviceAttribute, b: MongoDeviceAttribute)
    ensures ConvertToUpdate(a) == ConvertToUpdate(b) <==> a == b
  {
    if ConvertToUpdate(a) == ConvertToUpdate(b) {
      assert ConvertToUpdate(a)["$set"] == ConvertToUpdate(b)["$set"];
    }
  }

  /** UniqueQuery: the device's store identifier, then the attribute's name. */
  function UniqueQuery(a: MongoDeviceAttribute): (q: seq<Element>)
    ensures |q| == 2
    ensures q[0] == Element("storeDeviceIdentifier", a.deviceStoreIdentifier)
    ensures q[1] == Element("name", a.name)
  {
    [Element("storeDeviceIdentifier", a.deviceStoreIdentifier), Element("name", a.name)]
  }

  /** The string fields of the stored document. */
  function Document(a: MongoDeviceAttribute): map<string, string> {
    OmitEmpty("storeDeviceIdentifier", a.deviceStoreIdentifier) + OmitEmpty("name", a.name)
  }

  /**
   * The unique query of `a` finds exactly the stored attributes of the same
   * device and name, and none at all when either is empty, since an empty
   * field is not stored.
   */
  lemma UniqueQueryFinds(a: MongoDeviceAttribute, b: MongoDeviceAttribute)
    ensures Matches(UniqueQuery(a), Document(b)) <==>
              a.deviceStoreIdentifier != "" && a.name != ""
              && b.deviceStoreIdentifier == a.deviceStoreIdentifier && b.name == a.name
  {
    var q := UniqueQuery(a);
    var d := Document(b);
    if Matches(q, d) {
      assert q[0].key in d && d[q[0].key] == q[0].value;
      assert q[1].key in d && d[q[1].key] == q[1].value;
    }
  }
}
