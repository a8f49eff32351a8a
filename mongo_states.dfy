/**
 * Attribute states as the Mongo store keeps them
 * (database/models/attributestate.go; internal/database/models/attributestate.go
 * is the same code) and their conversion to and from the template state.
 */
module MongoStates {
  import opened Common
  import StoreTemplates

  datatype AttributeState = AttributeState(boolean: Option<bool>, numeric: Option<real>, text: Option<string>)

  /** ConvertToAPIAttributeState: all three values copied, absent ones stay absent. */
  function ConvertToApi(s: AttributeState): (r: StoreTemplates.AttributeState)
    ensures r.boolean == s.boolean && r.numeric == s.numeric && r.text == s.text
  {
    StoreTemplates.AttributeState(s.boolean, s.numeric, s.text)
  }

  /** NewAttributeStateFromAPIAttributeState: all three values copied. */
  function NewFromApi(a: StoreTemplates.AttributeState): (r: AttributeState)
    ensures r.boolean == a.boolean && r.numeric == a.numeric && r.text == a.text
  {
    AttributeState(a.boolean, a.numeric, a.text)
  }

  lemma StoredRoundTrip(s: AttributeState)
    ensures NewFromApi(ConvertToApi(s)) == s
  {
  }

  lemma ApiRoundTrip(a: StoreTemplates.AttributeState)
    ensures ConvertToApi(NewFromApi(a)) == a
  {
  }
}

/** Bridges as the Mongo store keeps them (database/models/bridge.go). */
module MongoBridges {
  import StoreTemplates

  datatype Bridge = Bridge(identifier: string, uri: string)

  /** ConvertToAPIBridge: identifier and URI copied. */
  function ConvertToApi(b: Bridge): (r: StoreTemplates.Bridge)
    ensures r.identifier == b.identifier && r.uri == b.uri
  {
    StoreTemplates.Bridge(b.identifier, b.uri)
  }

  /** NewBridgeFromAPIBridge: identifier and URI copied. */
  function NewFromApi(a: StoreTemplates.Bridge): (r: Bridge)
    ensures r.identifier == a.identifier && r.uri == a.uri
  {
    Bridge(a.identifier, a.uri)
  }

  lemma StoredRoundTrip(b: Bridge)
    ensures NewFromApi(ConvertToApi(b)) == b
  {
  }

  lemma ApiRoundTrip(a: StoreTemplates.Bridge)
    ensures ConvertToApi(NewFromApi(a)) == a
  {
  }
}
