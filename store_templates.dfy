/**
 * The device-store template records the Mongo models convert to and from
 * (the `devicestoretemplates` package). Only the fields the conversions
 * read or write are modelled; `time.Time` is an integer whose zero value is
 * Go's zero time.
 */
module StoreTemplates {
  import opened Common

  /** An attribute's state: up to three optional values. */
  datatype AttributeState = AttributeState(boolean: Option<bool>, numeric: Option<real>, text: Option<string>)

  /** A capability as the template reports it: when it was last seen. */
  datatype Capability = Capability(lastSeen: int)

  /** A bridge: its key and its URI. */
  datatype Bridge = Bridge(identifier: string, uri: string)

  /** A device: its identifier and its attributes and capabilities keyed by name. */
  datatype Device = Device(identifier: string, attributes: map<string, AttributeState>,
                           capabilities: map<string, Capability>)

  /** A group: its identifier, name and capabilities keyed by name. */
  datatype Group = Group(identifier: string, name: string, capabilities: map<string, Capability>)

  /** Go's zero `time.Time`. */
  const ZeroTime: int := 0

  /** The zero `Device{}`. */
  const EmptyDevice: Device := Device("", map[], map[])
}

/**
 * The BSON documents the Mongo models build for the driver: ordered filter
 * documents (`bson.D`) and update documents (`bson.M`).
 */
module Bson {
  /** One element `bson.E{Key, Value}` of an ordered filter; every value used is a string. */
  datatype Element = Element(key: string, value: string)

  /**
   * `{"$set": setFields, "$currentDate": {f: {"$type": t}}}` with `currentDate`
   * mapping each stamped field `f` to its type `t`.
   */
  datatype FieldUpdate = FieldUpdate(setFields: map<string, string>, currentDate: map<string, string>)

  /** `{"lastSeen": {"$type": "timestamp"}}`: the server stamps lastSeen with its own clock. */
  const StampLastSeen: map<string, string> := map["lastSeen" := "timestamp"]

  /**
   * A filter matches a stored document (its string fields, absent ones
   * left out) when every element's key is present with the element's value.
   */
  predicate Matches(filter: seq<Element>, document: map<string, string>) {
    forall i :: 0 <= i < |filter| ==> filter[i].key in document && document[filter[i].key] == filter[i].value
  }

  /** The stored string field `key`, left out when it is empty (a `bson:",omitempty"` tag). */
  function OmitEmpty(key: string, value: string): (m: map<string, string>)
    ensures key in m <==> value != ""
    ensures key in m ==> m[key] == value
    ensures m.Keys <= {key}
  {
    if value == "" then map[] else map[key := value]
  }
}
