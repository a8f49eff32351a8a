/**
 * Attribute rows of the intermediary layer and their conversion to and from
 * the REST attribute (internal/persistence/intermediaries/deviceAttribute.go).
 * The boolean state is stored as a number.
 */
module IntermediaryAttribute {
  import opened Common
  import opened RestModels
  import MariadbStore

  datatype AttributeIntermediary = AttributeIntermediary(name: string, deviceId: string, booleanX: Option<real>,
                                                         numeric: Option<real>, text: Option<string>)

  /** The stored number read as a boolean: any non-zero number is true. */
  function Boolean(a: AttributeIntermediary): (r: Option<bool>)
    ensures r.None? <==> a.booleanX.None?
    ensures r.Some? ==> (r.value <==> a.booleanX.value != 0.0)
  {
    match a.booleanX
    case None => None
    case Some(x) => Some(x != 0.0)
  }

  function ToRestModel(a: AttributeIntermediary): (r: Attribute)
    ensures r.name == a.name && r.numeric == a.numeric && r.text == a.text
    ensures r.boolean == Boolean(a)
  {
    Attribute(a.name, Boolean(a), a.numeric, a.text)
  }

  /** AttributeIntermediaryFromRest: true is stored as 1, false as 0; no device id is set. */
  function FromRest(attr: Attribute): (r: AttributeIntermediary)
    ensures r.name == attr.name && r.numeric == attr.numeric && r.text == attr.text && r.deviceId == ""
    ensures r.booleanX.None? <==> attr.boolean.None?
    ensures attr.boolean == Some(true) ==> r.booleanX == Some(1.0)
    ensures attr.boolean == Some(false) ==> r.booleanX == Some(0.0)
  {
    var boolean: Option<real> :=
      match attr.boolean
      case None => None
      case Some(b) => Some(if b then 1.0 else 0.0);
    AttributeIntermediary(attr.name, "", boolean, attr.numeric, attr.text)
  }

  /** Every REST attribute survives the trip through the intermediary. */
  lemma RestRoundTrip(attr: Attribute)
    ensures ToRestModel(FromRest(attr)) == attr
  {
  }

  /** The number an intermediary holds is in the form FromRest writes: absent, 0 or 1. */
  predicate CanonicalBoolean(stored: Option<real>) {
    stored.None? || stored.value == 0.0 || stored.value == 1.0
  }

  /**
   * An intermediary survives the trip through the REST model exactly when
   * it has no device id and its boolean is stored as 0 or 1.
   */
  lemma IntermediaryRoundTrip(a: AttributeIntermediary)
    ensures FromRest(ToRestModel(a)) == a <==> a.deviceId == "" && CanonicalBoolean(a.booleanX)
  {
    if a.deviceId == "" && CanonicalBoolean(a.booleanX) {
      assert FromRest(ToRestModel(a)).booleanX == a.booleanX;
    }
  }

  /**
   * The intermediary reads a stored 1337 as true, while the MariaDB store's
   * GetDevices reads the same number as false; both read 1 as true and 0 as
   * false.
   */
  lemma BooleanDecodingsDiffer(a: AttributeIntermediary)
    requires a.booleanX.Some?
    ensures a.booleanX.value == 1337.0 ==> Boolean(a) == Some(true)
    ensures a.booleanX.value == 1337.0 ==> MariadbStore.FromDbBoolean(a.booleanX) == Some(false)
    ensures Boolean(a) == MariadbStore.FromDbBoolean(a.booleanX) <==> a.booleanX.value == 0.0 || a.booleanX.value == 1.0
  {
  }

  /** The list conversions, one element at a time. */
  function ListToRestModel(attrs: seq<AttributeIntermediary>): seq<Attribute> {
    Mapped(attrs, ToRestModel)
  }

  function ListFromRest(attrs: seq<Attribute>): seq<AttributeIntermediary> {
    Mapped(attrs, FromRest)
  }

  /** AttributeIntermediaryList.ToRestModel */
  method ConvertListToRestModel(attrs: seq<AttributeIntermediary>) returns (restAttrs: seq<Attribute>)
    ensures restAttrs == ListToRestModel(attrs)
  {
    restAttrs := ConvertEach(attrs, ToRestModel);
  }

  /** AttributeIntermediaryListFromRest */
  method ConvertListFromRest(attrs: seq<Attribute>) returns (intermediaries: seq<AttributeIntermediary>)
    ensures intermediaries == ListFromRest(attrs)
  {
    intermediaries := ConvertEach(attrs, FromRest);
  }

  /** A REST attribute list survives the trip through intermediaries, in length and order. */
  lemma ListRestRoundTrip(attrs: seq<Attribute>)
    ensures ListToRestModel(ListFromRest(attrs)) == attrs
  {
    forall i | 0 <= i < |attrs| ensures ToRestModel(FromRest(attrs[i])) == attrs[i] {
      RestRoundTrip(attrs[i]);
    }
    MappedRoundTrip(attrs, FromRest, ToRestModel);
  }
}
