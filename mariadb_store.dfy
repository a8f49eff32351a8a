/**
 * The decisions the MariaDB store takes around its SQL statements
 * (internal/persistence/mariadb/mariadb.go): how a boolean is stored as a
 * number and read back, when a stored attribute equals an ingested one,
 * which ingested attributes `PostDevice` writes, and which memberships
 * `postGroupTx` inserts and deletes. The database is the rows a query
 * returned, passed in as a sequence.
 */
module MariadbStore {
  import opened Common
  import opened RestModels

  /**
   * An attribute row: `dbAttribute` as PostDevice scans it, and equally
   * `GetDevicesAttributeIntermediate` as GetDevices decodes it (both carry
   * the same four fields).
   */
  datatype DbAttribute = DbAttribute(name: string, booleanValue: Option<real>, numericValue: Option<real>,
                                     textValue: Option<string>)

  // ---------------------------------------------------------------------
  // Booleans stored as numbers

  /** toDbBoolean: true is stored as 1, false as 0, absent stays absent. */
  function ToDbBoolean(value: Option<bool>): (r: Option<real>)
    ensures r.None? <==> value.None?
    ensures r.Some? ==> (r.value == 1.0 || r.value == 0.0)
  {
    match value
    case None => None
    case Some(b) => Some(if b then 1.0 else 0.0)
  }

  /** The boolean GetDevices reports for a stored number: true only for exactly 1. */
  function FromDbBoolean(stored: Option<real>): (r: Option<bool>)
    ensures r.None? <==> stored.None?
  {
    match stored
    case None => None
    case Some(x) => Some(x == 1.0)
  }

  /** GetDevicesAttributeIntermediate.toRest */
  function ToRest(row: DbAttribute): (a: Attribute)
    ensures a.name == row.name && a.numeric == row.numericValue && a.text == row.textValue
    ensures a.boolean == FromDbBoolean(row.booleanValue)
  {
    Attribute(row.name, FromDbBoolean(row.booleanValue), row.numericValue, row.textValue)
  }

  /** The row the UPDATE and INSERT statements of PostDevice store for an attribute. */
  function ToDbAttribute(a: Attribute): (row: DbAttribute)
    ensures row.name == a.name && row.numericValue == a.numeric && row.textValue == a.text
    ensures row.booleanValue == ToDbBoolean(a.boolean)
  {
    DbAttribute(a.name, ToDbBoolean(a.boolean), a.numeric, a.text)
  }

  /** true, false and absent survive being stored and read back. */
  lemma BooleanRoundTrip(value: Option<bool>)
    ensures FromDbBoolean(ToDbBoolean(value)) == value
  {
  }

  /** Any stored number other than 1 reads back as false, so 1337 is false here. */
  lemma StoredNumberReadsFalse(x: real)
    requires x != 1.0
    ensures FromDbBoolean(Some(x)) == Some(false)
  {
  }

  /** An attribute written by PostDevice is read back by GetDevices unchanged. */
  lemma WrittenAttributeReadsBack(a: Attribute)
    ensures ToRest(ToDbAttribute(a)) == a
  {
    BooleanRoundTrip(a.boolean);
  }

  // ---------------------------------------------------------------------
  // EqualRest

  /** The tolerance on numeric states; the column is DECIMAL(10,4). */
  const NumericTolerance: real := 0.001

  function Abs(x: real): real {
    if x < 0.0 then -x else x
  }

  /** dbAttribute.EqualRest: the checks in the order the source makes them. */
  predicate EqualRest(a: DbAttribute, other: Attribute) {
    var dbBoolean := ToDbBoolean(other.boolean);
    if a.name != other.name then false
    else if dbBoolean.None? != a.booleanValue.None? then false
    else if dbBoolean.Some? && a.booleanValue.Some? && dbBoolean.value != a.booleanValue.value then false
    else if other.numeric.None? != a.numericValue.None? then false
    else if other.numeric.Some? && a.numericValue.Some?
            && Abs(other.numeric.value - a.numericValue.value) > NumericTolerance then false
    else if other.text.None? != a.textValue.None? then false
    else if other.text.Some? && a.textValue.Some? && other.text.value != a.textValue.value then false
    else true
  }

  /** Both numbers absent, or both present and at most the tolerance apart. */
  predicate NumericClose(x: Option<real>, y: Option<real>) {
    (x.None? && y.None?) || (x.Some? && y.Some? && Abs(x.value - y.value) <= NumericTolerance)
  }

  /**
   * EqualRest holds exactly when the names agree, the stored boolean is the
   * encoding of the ingested one, the numbers are close and the texts agree.
   * In particular a state present on one side only makes them differ.
   */
  lemma EqualRestMeans(a: DbAttribute, other: Attribute)
    ensures EqualRest(a, other) <==>
              a.name == other.name && a.booleanValue == ToDbBoolean(other.boolean)
              && NumericClose(a.numericValue, other.numeric) && a.textValue == other.text
  {
  }

  /** A row stored for an attribute equals that attribute. */
  lemma WrittenAttributeIsEqual(a: Attribute)
    ensures EqualRest(ToDbAttribute(a), a)
  {
    EqualRestMeans(ToDbAttribute(a), a);
  }

  /** Numbers 0.0005 apart are equal; 25 and 20 are not. */
  lemma NumericToleranceExamples(name: string)
    ensures EqualRest(DbAttribute(name, None, Some(25.5), None), Attribute(name, None, Some(25.5005), None))
    ensures !EqualRest(DbAttribute(name, None, Some(20.0), None), Attribute(name, None, Some(25.0), None))
  {
  }

  // ---------------------------------------------------------------------
  // The changed-attribute rule of PostDevice

  function RowName(row: DbAttribute): string {
    row.name
  }

  function RowItself(row: DbAttribute): DbAttribute {
    row
  }

  function AttributeName(a: Attribute): string {
    a.name
  }

  /** The stored attributes by name; a later row with the same name replaces an earlier one. */
  function PresentAttributes(rows: seq<DbAttribute>): map<string, DbAttribute> {
    LastWins(rows, RowName, RowItself)
  }

  /** An ingested attribute is written when it is not stored or differs from the stored row. */
  predicate NeedsWrite(present: map<string, DbAttribute>, a: Attribute) {
    a.name !in present || !EqualRest(present[a.name], a)
  }

  /** The ingested attributes that need a write, in input order. */
  function Changed(present: map<string, DbAttribute>, incoming: seq<Attribute>): seq<Attribute> {
    if incoming == [] then []
    else
      var a := incoming[|incoming| - 1];
      Changed(present, incoming[..|incoming| - 1]) + (if NeedsWrite(present, a) then [a] else [])
  }

  /** A statement PostDevice issues for one attribute. */
  datatype AttributeWrite = Update(row: DbAttribute) | Insert(row: DbAttribute)

  /** UPDATE for an attribute already stored, INSERT for a new one. */
  function WriteFor(present: map<string, DbAttribute>, a: Attribute): AttributeWrite {
    if a.name in present then Update(ToDbAttribute(a)) else Insert(ToDbAttribute(a))
  }

  /**
   * The attribute loops of PostDevice. `storedRows` is what the SELECT on
   * deviceAttributes returned (nothing for a device just inserted);
   * `updated` is the list PostDevice returns and `writes` the statements it
   * executes, one per updated attribute.
   */
  method ChangedAttributes(storedRows: seq<DbAttribute>, incoming: seq<Attribute>)
    returns (updated: seq<Attribute>, writes: seq<AttributeWrite>)
    ensures updated == Changed(PresentAttributes(storedRows), incoming)
    ensures |writes| == |updated|
    ensures forall i :: 0 <= i < |writes| ==> writes[i] == WriteFor(PresentAttributes(storedRows), updated[i])
  {
    var presentAttributes: map<string, DbAttribute> := map[];
    for i := 0 to |storedRows|
      invariant presentAttributes == PresentAttributes(storedRows[..i])
    {
      assert storedRows[..i + 1][..i] == storedRows[..i];
      presentAttributes := presentAttributes[storedRows[i].name := storedRows[i]];
    }
    assert storedRows[..|storedRows|] == storedRows;
    updated := [];
    writes := [];
    for i := 0 to |incoming|
      invariant updated == Changed(presentAttributes, incoming[..i])
      invariant |writes| == |updated|
      invariant forall j :: 0 <= j < |writes| ==> writes[j] == WriteFor(presentAttributes, updated[j])
    {
      var attribute := incoming[i];
      assert incoming[..i + 1][..i] == incoming[..i];
      if attribute.name in presentAttributes {
        if !EqualRest(presentAttributes[attribute.name], attribute) {
          writes := writes + [Update(ToDbAttribute(attribute))];
          updated := updated + [attribute];
        }
      } else {
        writes := writes + [Insert(ToDbAttribute(attribute))];
        updated := updated + [attribute];
      }
    }
    assert incoming[..|incoming|] == incoming;
  }

  /** An attribute is in the changed list exactly when it is ingested and needs a write. */
  lemma {:induction false} ChangedMembers(present: map<string, DbAttribute>, incoming: seq<Attribute>)
    ensures forall a :: a in Changed(present, incoming) ==> a in incoming && NeedsWrite(present, a)
    ensures forall a :: a in incoming && NeedsWrite(present, a) ==> a in Changed(present, incoming)
  {
    if incoming != [] {
      var init := incoming[..|incoming| - 1];
      ChangedMembers(present, init);
      assert incoming == init + [incoming[|incoming| - 1]];
    }
  }

  /** For a device that was just created every ingested attribute is written. */
  lemma {:induction false} NewDeviceWritesAll(incoming: seq<Attribute>)
    ensures Changed(PresentAttributes([]), incoming) == incoming
  {
    if incoming != [] {
      NewDeviceWritesAll(incoming[..|incoming| - 1]);
    }
  }

  /** Nothing is written exactly when every ingested attribute equals its stored row. */
  lemma {:induction false} NothingChangedIff(present: map<string, DbAttribute>, incoming: seq<Attribute>)
    ensures Changed(present, incoming) == [] <==> forall i :: 0 <= i < |incoming| ==> !NeedsWrite(present, incoming[i])
  {
    if incoming != [] {
      NothingChangedIff(present, incoming[..|incoming| - 1]);
    }
  }

  /** The stored rows after the writes: a written attribute's row replaces the old one. */
  function AfterWrites(present: map<string, DbAttribute>, incoming: seq<Attribute>): map<string, DbAttribute> {
    present + LastWins(Changed(present, incoming), AttributeName, ToDbAttribute)
  }

  predicate DistinctNames(incoming: seq<Attribute>) {
    forall i, j :: 0 <= i < j < |incoming| ==> incoming[i].name != incoming[j].name
  }

  /**
   * Posting the same attributes again (names distinct) after the writes
   * have been applied changes nothing: the second post reports no updates.
   */
  lemma RepostChangesNothing(present: map<string, DbAttribute>, incoming: seq<Attribute>)
    requires DistinctNames(incoming)
    ensures Changed(AfterWrites(present, incoming), incoming) == []
  {
    var changed := Changed(present, incoming);
    var written := LastWins(changed, AttributeName, ToDbAttribute);
    var after := AfterWrites(present, incoming);
    ChangedMembers(present, incoming);
    LastWinsKeys(changed, AttributeName, ToDbAttribute);
    forall i | 0 <= i < |incoming| ensures !NeedsWrite(after, incoming[i]) {
      var a := incoming[i];
      if NeedsWrite(present, a) {
        assert a in changed;
        assert a.name in written.Keys;
        LastWinsValue(changed, AttributeName, ToDbAttribute, a.name);
        var j :| 0 <= j < |changed| && changed[j].name == a.name && written[a.name] == ToDbAttribute(changed[j])
                 && forall k :: j < k < |changed| ==> changed[k].name != a.name;
        assert changed[j] in incoming;
        var k :| 0 <= k < |incoming| && incoming[k] == changed[j];
        assert k == i;
        WrittenAttributeIsEqual(a);
      } else {
        forall b | b in changed ensures b.name != a.name {
          var k :| 0 <= k < |incoming| && incoming[k] == b;
          assert NeedsWrite(present, b);
          assert k != i;
        }
        assert a.name !in written.Keys;
      }
    }
    NothingChangedIff(after, incoming);
  }

  // ---------------------------------------------------------------------
  // Group membership reconciliation in postGroupTx

  /** An INSERT into or a DELETE from groupDevices for this group. */
  datatype MembershipChange = AddDevice(deviceId: int) | RemoveDevice(deviceId: int)

  /** The incoming ids that are not members yet, in incoming order. */
  function Additions(current: seq<int>, incoming: seq<int>): seq<MembershipChange> {
    if incoming == [] then []
    else
      var d := incoming[|incoming| - 1];
      Additions(current, incoming[..|incoming| - 1]) + (if d in current then [] else [AddDevice(d)])
  }

  /**
   * The ingested list is not de-duplicated: a non-member id is inserted
   * once per occurrence, so `[7, 7]` issues two inserts of 7.
   */
  lemma {:induction false} AdditionsPerOccurrence(current: seq<int>, incoming: seq<int>, d: int)
    ensures multiset(Additions(current, incoming))[AddDevice(d)] == if d in current then 0 else multiset(incoming)[d]
  {
    if incoming != [] {
      var init := incoming[..|incoming| - 1];
      AdditionsPerOccurrence(current, init, d);
      assert incoming == init + [incoming[|incoming| - 1]];
    }
  }

  /** The members that are not in the incoming list, in member order. */
  function Removals(current: seq<int>, incoming: seq<int>): seq<MembershipChange> {
    if current == [] then []
    else
      var d := current[|current| - 1];
      Removals(current[..|current| - 1], incoming) + (if d in incoming then [] else [RemoveDevice(d)])
  }

  /**
   * The device-id loops of postGroupTx: `current` is the group's device ids
   * as found (empty for a group just inserted), `incoming` the ingested ones.
   */
  method ReconcileGroupDevices(current: seq<int>, incoming: seq<int>) returns (changes: seq<MembershipChange>)
    ensures changes == Additions(current, incoming) + Removals(current, incoming)
  {
    changes := [];
    for i := 0 to |incoming|
      invariant changes == Additions(current, incoming[..i])
    {
      assert incoming[..i + 1][..i] == incoming[..i];
      if incoming[i] in current {
        continue;
      }
      changes := changes + [AddDevice(incoming[i])];
    }
    assert incoming[..|incoming|] == incoming;
    var added := changes;
    for i := 0 to |current|
      invariant changes == added + Removals(current[..i], incoming)
    {
      assert current[..i + 1][..i] == current[..i];
      if current[i] !in incoming {
        changes := changes + [RemoveDevice(current[i])];
      }
    }
    assert current[..|current|] == current;
  }

  /**
   * The group's membership, as a set, after executing `changes` in order,
   * with every INSERT and DELETE taken to succeed.
   */
  function Apply(members: set<int>, changes: seq<MembershipChange>): set<int> {
    if changes == [] then members
    else
      var c := changes[|changes| - 1];
      var before := Apply(members, changes[..|changes| - 1]);
      match c
      case AddDevice(d) => before + {d}
      case RemoveDevice(d) => before - {d}
  }

  lemma {:induction false} ApplyAppend(members: set<int>, a: seq<MembershipChange>, b: seq<MembershipChange>)
    ensures Apply(members, a + b) == Apply(Apply(members, a), b)
  {
    if b == [] {
      assert a + b == a;
    } else {
      assert (a + b)[..|a + b| - 1] == a + b[..|b| - 1];
      ApplyAppend(members, a, b[..|b| - 1]);
    }
  }

  lemma {:induction false} ApplyAdditions(members: set<int>, current: seq<int>, incoming: seq<int>)
    ensures Apply(members, Additions(current, incoming)) == members + (set d | d in incoming && d !in current)
  {
    if incoming != [] {
      var init := incoming[..|incoming| - 1];
      var d := incoming[|incoming| - 1];
      ApplyAdditions(members, current, init);
      ApplyAppend(members, Additions(current, init), if d in current then [] else [AddDevice(d)]);
      assert incoming == init + [d];
    }
  }

  lemma {:induction false} ApplyRemovals(members: set<int>, current: seq<int>, incoming: seq<int>)
    ensures Apply(members, Removals(current, incoming)) == members - (set d | d in current && d !in incoming)
  {
    if current != [] {
      var init := current[..|current| - 1];
      var d := current[|current| - 1];
      ApplyRemovals(members, init, incoming);
      ApplyAppend(members, Removals(init, incoming), if d in incoming then [] else [RemoveDevice(d)]);
      assert current == init + [d];
    }
  }

  function MemberSet(ids: seq<int>): set<int> {
    set d | d in ids
  }

  /** After reconciliation the group's members are exactly the incoming ids. */
  lemma ReconciledMembership(current: seq<int>, incoming: seq<int>)
    ensures Apply(MemberSet(current), Additions(current, incoming) + Removals(current, incoming)) == MemberSet(incoming)
  {
    var members := MemberSet(current);
    ApplyAppend(members, Additions(current, incoming), Removals(current, incoming));
    ApplyAdditions(members, current, incoming);
    ApplyRemovals(Apply(members, Additions(current, incoming)), current, incoming);
  }

  /** Only ids missing from the group are inserted, and only ids not ingested are deleted. */
  lemma {:induction false} ChangesAreNeeded(current: seq<int>, incoming: seq<int>)
    ensures forall c :: c in Additions(current, incoming) ==> c.AddDevice? && c.deviceId in incoming && c.deviceId !in current
    ensures forall c :: c in Removals(current, incoming) ==> c.RemoveDevice? && c.deviceId in current && c.deviceId !in incoming
  {
    if incoming != [] {
      ChangesAreNeeded(current, incoming[..|incoming| - 1]);
      assert incoming == incoming[..|incoming| - 1] + [incoming[|incoming| - 1]];
    }
    if current != [] {
      ChangesAreNeeded(current[..|current| - 1], incoming);
      assert current == current[..|current| - 1] + [current[|current| - 1]];
    }
  }
}
