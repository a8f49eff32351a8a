# device-store, modelled in Dafny

device-store keeps the devices, attributes, capabilities and groups that
bridges (adapters) report, and serves them over a REST/GraphQL API. This
project models the decision-making core of the store:

- **Query filters.** A query string such as `id[eq]=4` is split into
  key/operator/value filters (`restmodels/queryfilters.go`, and the identical
  copy in `internal/persistence/intermediaries/filter.go`). A filter table
  then translates them into SQL where-clauses with bound values.
- **The MariaDB store's pure decisions** (`internal/persistence/mariadb/mariadb.go`):
  - the filter tables for devices, attribute audits and groups;
  - `validateTimestamp`, with the range checks of Go's `time.Parse` written out;
  - how booleans are stored as numbers and read back;
  - when an ingested attribute counts as changed, and so which UPDATE/INSERT
    statements PostDevice issues;
  - how postGroupTx reconciles a group's members with the ingested list.
- **Model conversions:**
  - the persistence intermediaries (`internal/persistence/intermediaries`);
  - the two generations of MongoDB models (`database/models` and
    `internal/database/models`), including their `$set`/`$currentDate`
    updates, unique queries and `omitempty` fields;
  - grouping attribute records into devices, and picking the latest
    capability records.
- **Validators:**
  - the ingest argument schema (`ingestmodels/capabilityschema.go`);
  - the JWT gate of the ingest API (`internal/ingestwebapp/jwt.go`);
  - both configuration files (`config/config.go`, `internal/config/config.go`);
  - the system error wrapper (`internal/systemerrors/systemerrors.go`).

Layout: the modules follow the Go files, with these exceptions:

- mariadb.go is split into MariadbFilters and MariadbStore.
- The query-key parsing shared by filter.go and queryfilters.go is
  QueryFilters; filter.go's translation is FilterTranslation.
- The two attributestate.go files share MongoStates, and the two device.go
  files share MongoDevices.
- Common, StoreTemplates, Bson and RestModels are support modules.
  `common.dfy` holds the shared kit: Option/Result, HTTP status codes, digit
  strings, and generic sequence and map helpers with their lemmas.

How Go constructs are represented:

- **Go map iteration order is unspecified.** Every loop over a map is a
  method that visits the keys in an arbitrary order. The order it picked is
  returned as a ghost `order`, and the contracts state what holds for every
  such order.
- **Go errors** are `Option<string>` or `Result<T, string>`: no error, or
  the error's text.
- **Time** is an integer, with Go's zero `time.Time` as `0`.
- **`float32`/`float64` values** are reals.
- **BSON documents** are maps from field name to value.
- **Records from other packages** (`devicestoretemplates`, `rest/models`)
  are modelled by the fields the core reads and writes (`store_templates.dfy`,
  `restmodels.dfy`).

## Model

| member | source | states |
|---|---|---|
| QueryFilters.SplitQueryKey | restmodels/queryfilters.go:20 | a key matching `^(.+)\[(.+)\]$` splits into a non-empty key and operator without newlines, and the query key is exactly `key[operator]` |
| QueryFilters.SplitQueryKeyIsLongest | restmodels/queryfilters.go:20 | the greedy first group: no `[` occurs after the chosen split point |
| QueryFilters.SplitQueryKeyMatches | restmodels/queryfilters.go:20 | every non-empty key and operator without newlines written as `key[operator]` is matched |
| QueryFilters.SplitQueryKeyInjective | restmodels/queryfilters.go:20 | two matching query keys that split alike are the same key |
| QueryFilters.ParseQueryIntoFilters | restmodels/queryfilters.go:22-38 | in whatever order the keys are visited, every filter comes from a value of a matching query key with that key's split, and the filters of each matching key are its values in order; keys that do not match are skipped |
| QueryFilters.AppendFilters | restmodels/queryfilters.go:31-35 | the inner loop appends one filter per value of the key, in value order, each with the split key and operator |
| QueryFilters.ParseEmptyQuery | restmodels/queryfilters.go:22-38 | an empty query yields no filters |
| QueryFilters.ParsedFilterOrigin | restmodels/queryfilters.go:25-35 | every filter comes from a matching query key whose split is its key/operator, and its value is one of that key's values |
| QueryFilters.NonMatchingKeyIgnored | restmodels/queryfilters.go:27-30 | changing the values of a non-matching key changes no filter |
| QueryFilters.FiltersForWithKeyOperator | restmodels/queryfilters.go:31-34 | the filters built for one key/operator all carry that pair |
| QueryFilters.ParsedFiltersOfKey | internal/persistence/intermediaries/filter.go:16-32 | whatever the visit order, the filters for a matching key are exactly its values, in their given order |
| QueryFilters.ParsedFiltersOfKeyIn | internal/persistence/intermediaries/filter.go:19-30 | the same for any duplicate-free partial visit that includes the key |
| QueryFilters.ParsedFilterCount | internal/persistence/intermediaries/filter.go:16-32 | there are as many filters as values under matching keys |
| FilterTranslation.TranslateFiltersToQueryFragments | internal/persistence/intermediaries/filter.go:34-55 | the loop's result is the translation of the filters in order: clauses and bound values appended, or the first rejection |
| FilterTranslation.TranslationSucceedsIff | internal/persistence/intermediaries/filter.go:37-53 | translation succeeds exactly when the table has every filter's attribute and operator |
| FilterTranslation.TranslationClauses | internal/persistence/intermediaries/filter.go:40-41 | on success, clause i is the one filter i's entry builds |
| FilterTranslation.TranslationFailsAtFirstRejected | internal/persistence/intermediaries/filter.go:46-52 | on failure, the error is the rejection (unknown operator, or unknown attribute) of the first filter the table refuses |
| FilterTranslation.TranslationFailureSticks | internal/persistence/intermediaries/filter.go:46-52 | once a prefix fails, later filters do not change the outcome |
| FilterTranslation.TranslationSingleValues | internal/persistence/intermediaries/filter.go:42-44 | when each entry binds its value alone, bound value i is filter i's value |
| IntermediaryDevice.DeviceFiltersOffered | internal/persistence/intermediaries/device.go:35-46 | devices filter on bridge-identifier and id, each with eq only |
| IntermediaryDevice.DeviceFiltersAllow | internal/persistence/intermediaries/device.go:35-46 | the table allows exactly eq on those two, building `column = ?` bound to the value |
| IntermediaryDevice.DeviceFilterTranslation | internal/persistence/intermediaries/device.go:35-46 | translating with the device table succeeds iff every filter is such an eq, and then yields one clause and one value per filter |
| IntermediaryDevice.ToRestModel | internal/persistence/intermediaries/device.go:48-57 | id, bridge fields and group ids are copied; the i-th attribute and capability are the REST conversions of the i-th intermediary ones, same counts |
| IntermediaryDevice.FromRest | internal/persistence/intermediaries/device.go:59-68 | id, bridge fields and group ids are copied; the i-th attribute and capability are the intermediary conversions of the i-th REST ones, same counts |
| IntermediaryDevice.RestRoundTrip | internal/persistence/intermediaries/device.go:48-68 | a REST device survives the trip through the intermediary unchanged |
| IntermediaryGroup.GroupFiltersLikeDeviceFilters | internal/persistence/intermediaries/group.go:16-27 | the group table translates every filter list as the device table does |
| IntermediaryGroup.ToRestModel | internal/persistence/intermediaries/group.go:29-36 | id and bridge fields copied, name left empty, capabilities converted one for one |
| IntermediaryGroup.FromRest | internal/persistence/intermediaries/group.go:38-45 | id and bridge fields copied, name dropped; the i-th capability carries the i-th REST capability's name and an empty group id |
| IntermediaryGroup.RestRoundTrip | internal/persistence/intermediaries/group.go:29-45 | a REST group comes back with everything but its name |
| IntermediaryAttribute.Boolean | internal/persistence/intermediaries/deviceAttribute.go:20-26 | absent stays absent; any non-zero stored number is true |
| IntermediaryAttribute.ToRestModel | internal/persistence/intermediaries/deviceAttribute.go:28-35 | name, number and text copied; boolean decoded by Boolean |
| IntermediaryAttribute.FromRest | internal/persistence/intermediaries/deviceAttribute.go:37-52 | true stored as 1, false as 0, absent as absent; no device id |
| IntermediaryAttribute.RestRoundTrip | internal/persistence/intermediaries/deviceAttribute.go:28-52 | every REST attribute survives the trip |
| IntermediaryAttribute.IntermediaryRoundTrip | internal/persistence/intermediaries/deviceAttribute.go:28-52 | an intermediary survives the reverse trip iff it has no device id and its boolean is stored as 0 or 1 |
| IntermediaryAttribute.BooleanDecodingsDiffer | internal/persistence/intermediaries/deviceAttribute.go:20-26 | the intermediary reads 1337 as true where the store's GetDevices reads it as false; the two agree exactly on 0 and 1 |
| IntermediaryAttribute.ConvertListToRestModel | internal/persistence/intermediaries/deviceAttribute.go:64-70 | the list is converted element by element, in order |
| IntermediaryAttribute.ConvertListFromRest | internal/persistence/intermediaries/deviceAttribute.go:72-78 | the list is converted element by element, in order |
| IntermediaryAttribute.ListRestRoundTrip | internal/persistence/intermediaries/deviceAttribute.go:64-78 | a REST attribute list survives the trip, in length and order |
| IntermediaryDeviceCapability.ToRestModel | internal/persistence/intermediaries/deviceCapability.go:15-19 | only the name crosses over |
| IntermediaryDeviceCapability.FromRest | internal/persistence/intermediaries/deviceCapability.go:21-25 | the name is copied and the device id left empty |
| IntermediaryDeviceCapability.RestRoundTrip | internal/persistence/intermediaries/deviceCapability.go:15-25 | a REST capability survives the trip |
| IntermediaryDeviceCapability.IntermediaryRoundTrip | internal/persistence/intermediaries/deviceCapability.go:15-25 | an intermediary survives the reverse trip iff its device id is empty |
| IntermediaryDeviceCapability.ConvertListToRestModel | internal/persistence/intermediaries/deviceCapability.go:37-43 | element by element, in order |
| IntermediaryDeviceCapability.ConvertListFromRest | internal/persistence/intermediaries/deviceCapability.go:45-51 | element by element, in order |
| IntermediaryDeviceCapability.ListRestRoundTrip | internal/persistence/intermediaries/deviceCapability.go:37-51 | a REST capability list survives the trip |
| IntermediaryGroupCapability.ToRestModel | internal/persistence/intermediaries/groupCapability.go:15-19 | only the name crosses over |
| IntermediaryGroupCapability.FromRest | internal/persistence/intermediaries/groupCapability.go:21-25 | the name is copied and the group id left empty |
| IntermediaryGroupCapability.RestRoundTrip | internal/persistence/intermediaries/groupCapability.go:15-25 | a REST group capability survives the trip |
| IntermediaryGroupCapability.IntermediaryRoundTrip | internal/persistence/intermediaries/groupCapability.go:15-25 | an intermediary survives the reverse trip iff its group id is empty |
| IntermediaryGroupCapability.ConvertListToRestModel | internal/persistence/intermediaries/groupCapability.go:37-43 | element by element, in order |
| IntermediaryGroupCapability.ConvertListFromRest | internal/persistence/intermediaries/groupCapability.go:45-51 | element by element, in order |
| IntermediaryGroupCapability.ListRestRoundTrip | internal/persistence/intermediaries/groupCapability.go:37-51 | a REST group capability list survives the trip |
| IntermediaryScan.Scan | internal/persistence/intermediaries/deviceAttribute.go:56-62 | a non-byte driver value is refused with the type-assertion error; bytes are decoded as JSON |
| MariadbFilters.ValidateTimestamp | internal/persistence/mariadb/mariadb.go:56-72 | every error is a 400; a value of neither shape gets the format message |
| MariadbFilters.ValidateTimestampAcceptsCalendar | internal/persistence/mariadb/mariadb.go:56-72 | accepted exactly when the value writes a real calendar date, or such a date with a time from 00:00:00 to 23:59:59 |
| MariadbFilters.AcceptedIsCalendar | internal/persistence/mariadb/mariadb.go:56-72 | every accepted value is a calendar date or date-time |
| MariadbFilters.CalendarIsAccepted | internal/persistence/mariadb/mariadb.go:56-72 | every calendar date or date-time is accepted |
| MariadbFilters.DateTextAccepted | internal/persistence/mariadb/mariadb.go:64-69 | the text of any valid date is accepted |
| MariadbFilters.DateTimeTextAccepted | internal/persistence/mariadb/mariadb.go:57-62 | the text of any valid date and time is accepted |
| MariadbFilters.DateTextReadsBack | internal/persistence/mariadb/mariadb.go:64-69 | a written date has the date shape and reads back as its fields |
| MariadbFilters.DateTimeTextReadsBack | internal/persistence/mariadb/mariadb.go:57-62 | a written date-time has the date-time shape and reads back as its fields |
| MariadbFilters.MonthOutOfRangeReported | internal/persistence/mariadb/mariadb.go:64-69 | `2024-13-01` is refused with the month out of range |
| MariadbFilters.LeapDayChecked | internal/persistence/mariadb/mariadb.go:64-69 | `2024-02-29` is accepted and `2023-02-29` refused on the day |
| MariadbFilters.RangeCheckOrder | internal/persistence/mariadb/mariadb.go:56-72 | for every shaped value: a bad month is reported first, then a bad hour whatever the day; the day is reported only when month and time are in range |
| MariadbFilters.HourReportedBeforeDay | internal/persistence/mariadb/mariadb.go:57-62 | an hour of 24 is reported before an out-of-range day |
| MariadbFilters.DeviceFiltersOffered | internal/persistence/mariadb/mariadb.go:39-53 | devices filter on bridge-identifier and id, each with eq only |
| MariadbFilters.DeviceFiltersBuild | internal/persistence/mariadb/mariadb.go:39-53 | bridge-identifier binds any value; id binds only digit strings and refuses anything else with a 400 and no clause |
| MariadbFilters.AuditFiltersOffered | internal/persistence/mariadb/mariadb.go:75-101 | audits filter on deviceId and name with eq, and on timestamp with eq, gt and lt |
| MariadbFilters.AuditFiltersBuild | internal/persistence/mariadb/mariadb.go:76-88 | deviceId binds only digit strings; name binds any value |
| MariadbFilters.AuditTimestampFilters | internal/persistence/mariadb/mariadb.go:89-99 | the timestamp comparisons use `=`, `>`, `<`, bind the raw value, and err exactly when validateTimestamp does |
| MariadbFilters.GroupFiltersOffered | internal/persistence/mariadb/mariadb.go:416-432 | groups filter on bridge-identifier, id and bridge-key, each with eq only |
| MariadbFilters.GroupFiltersBuild | internal/persistence/mariadb/mariadb.go:416-432 | no group filter checks its value, not even id |
| MariadbStore.ToDbBoolean | internal/persistence/mariadb/mariadb.go:271-279 | absent stays absent; a present boolean is stored as 0 or 1 |
| MariadbStore.FromDbBoolean | internal/persistence/mariadb/mariadb.go:120-132 | absent stays absent; present reads as true only for exactly 1 |
| MariadbStore.ToRest | internal/persistence/mariadb/mariadb.go:120-132 | a stored row is read with name, number and text copied and the boolean decoded |
| MariadbStore.ToDbAttribute | internal/persistence/mariadb/mariadb.go:367-376 | the row written for an attribute stores its boolean as 0 or 1 and copies the rest |
| MariadbStore.BooleanRoundTrip | internal/persistence/mariadb/mariadb.go:120-132 | true, false and absent survive being stored and read back |
| MariadbStore.StoredNumberReadsFalse | internal/persistence/mariadb/mariadb.go:120-132 | any stored number other than 1 reads as false |
| MariadbStore.WrittenAttributeReadsBack | internal/persistence/mariadb/mariadb.go:120-132 | an attribute PostDevice writes is read back by GetDevices unchanged |
| MariadbStore.EqualRestMeans | internal/persistence/mariadb/mariadb.go:289-321 | EqualRest holds iff names agree, the stored boolean encodes the ingested one, the numbers are both absent or within the tolerance, and the texts agree |
| MariadbStore.WrittenAttributeIsEqual | internal/persistence/mariadb/mariadb.go:289-321 | a row written for an attribute is equal to it, so it is not rewritten |
| MariadbStore.NumericToleranceExamples | internal/persistence/mariadb/mariadb.go:306-311 | numbers 0.0005 apart are equal; 20 and 25 are not |
| MariadbStore.ChangedAttributes | internal/persistence/mariadb/mariadb.go:338-382 | the updated list is the ingested attributes that are new or differ from their stored row, in order, with one UPDATE (stored) or INSERT (new) each |
| MariadbStore.ChangedMembers | internal/persistence/mariadb/mariadb.go:363-382 | an attribute is reported changed iff it was ingested and needs a write |
| MariadbStore.NewDeviceWritesAll | internal/persistence/mariadb/mariadb.go:363-382 | for a device with no stored rows, every ingested attribute is written |
| MariadbStore.NothingChangedIff | internal/persistence/mariadb/mariadb.go:363-382 | nothing is written iff every ingested attribute equals its stored row |
| MariadbStore.RepostChangesNothing | internal/persistence/mariadb/mariadb.go:323-401 | posting the same attributes again once the writes are applied reports no updates |
| MariadbStore.ReconcileGroupDevices | internal/persistence/mariadb/mariadb.go:539-556 | the statements are the inserts of incoming ids not yet members, then the deletes of members not incoming |
| MariadbStore.ApplyAppend | internal/persistence/mariadb/mariadb.go:539-556 | executing two statement lists in sequence is executing their concatenation |
| MariadbStore.ApplyAdditions | internal/persistence/mariadb/mariadb.go:539-547 | the inserts add exactly the incoming ids that were not members |
| MariadbStore.ApplyRemovals | internal/persistence/mariadb/mariadb.go:549-556 | the deletes remove exactly the members that are not incoming |
| MariadbStore.ReconciledMembership | internal/persistence/mariadb/mariadb.go:496-558 | after reconciliation the group's members, as a set, are exactly the incoming ids, taking every INSERT and DELETE to succeed |
| MariadbStore.AdditionsPerOccurrence | internal/persistence/mariadb/mariadb.go:539-547 | a non-member id is inserted once per occurrence in the ingested list, a member never |
| MariadbStore.ChangesAreNeeded | internal/persistence/mariadb/mariadb.go:539-556 | only missing ids are inserted, and only ids not ingested are deleted |
| MongoStates.ConvertToApi | database/models/attributestate.go:11-17 | all three optional states are copied (also internal/database/models/attributestate.go:11-17) |
| MongoStates.NewFromApi | database/models/attributestate.go:19-25 | all three optional states are copied |
| MongoStates.StoredRoundTrip | database/models/attributestate.go:11-25 | a stored state survives the trip through the API model |
| MongoStates.ApiRoundTrip | internal/database/models/attributestate.go:11-25 | an API state survives the trip through the stored model |
| MongoBridges.ConvertToApi | database/models/bridge.go:12-17 | identifier and URI are copied |
| MongoBridges.NewFromApi | database/models/bridge.go:19-24 | identifier and URI are copied |
| MongoBridges.StoredRoundTrip | database/models/bridge.go:12-24 | a stored bridge survives the trip |
| MongoBridges.ApiRoundTrip | database/models/bridge.go:12-24 | an API bridge survives the trip |
| MongoAttributes.ConvertToUpdate | database/models/deviceattribute.go:14-18 | the update is a single `$set` of the whole record |
| MongoAttributes.UpdateDeterminesAttribute | database/models/deviceattribute.go:14-18 | two records give the same update iff they are equal |
| MongoAttributes.ExtractedFrom | database/models/deviceattribute.go:20-34 | one record per visited attribute name, in visit order |
| MongoAttributes.ExtractAttributeModels | database/models/deviceattribute.go:20-34 | one record per attribute of the device, each with the device id, distinct names, every name present, states converted |
| MongoCapabilities.ConvertToApiCapability | database/models/capability.go:18-22 | only lastSeen crosses over |
| MongoCapabilities.ApiCapabilityKeepsOnlyLastSeen | database/models/capability.go:18-22 | two records convert alike iff their lastSeen agree |
| MongoCapabilities.ConvertToUpdate | database/models/capability.go:24-36 | `$set` of device id, name, bridge key and URI, with `$currentDate` stamping lastSeen |
| MongoCapabilities.UpdateReadsBack | database/models/capability.go:24-36 | applying the update stores the record with lastSeen set to the current time |
| MongoCapabilities.ExtractCapabilityModels | database/models/capability.go:38-49 | one record per capability of the device, names distinct and exactly the device's, bridge fields from the bridge |
| MongoCapabilities.LatestKeys | database/models/capability.go:51-64 | the reduction keeps a name iff some record of it has lastSeen after the zero time |
| MongoCapabilities.LatestValues | database/models/capability.go:51-64 | the record kept for a name is a record of that name from the input |
| MongoCapabilities.LastIsFirstLatest | database/models/capability.go:55-57 | a last record strictly newer than all before it is the first latest of its name |
| MongoCapabilities.ExtendFirstLatest | database/models/capability.go:55-57 | appending a record that is not strictly newer keeps the first latest record |
| MongoCapabilities.FirstLatestUnique | database/models/capability.go:51-64 | each name has at most one first latest record |
| MongoCapabilities.LatestKeepsFirstLatest | database/models/capability.go:51-64 | the fold keeps exactly the first latest record of each name |
| MongoCapabilities.ReducedRecords | database/models/capability.go:51-64 | the reduced list has distinct names, each the first record with the latest lastSeen, covering every name seen after the zero time |
| MongoCapabilities.ReduceToMostRelevantCapabilities | database/models/capability.go:51-64 | the loop's result is the fold's records in some order, with the properties of ReducedRecords |
| MongoDevices.FirstMismatch | database/models/device.go:15-23 | the index of the first record of another device, all before it of the given device |
| MongoDevices.FirstMismatchAt | database/models/device.go:15-23 | any index with that property is the first mismatch |
| MongoDevices.ConvertAttributesToApiDevice | database/models/device.go:10-27 | the loop's result is Conversion: empty input errs, a foreign device id errs with the device built so far, else the device (internal/database/models/device.go:9-26 repeats this code over fields its package lacks) |
| MongoDevices.ConversionFails | database/models/device.go:10-27 | the conversion succeeds iff the input is non-empty and all device ids agree; empty input gives the empty-input error |
| MongoDevices.ConversionSucceeds | database/models/device.go:10-27 | on success the device has the common id, no capabilities, and each name mapped to its last record's state |
| MongoDevices.MismatchKeepsPrefix | database/models/device.go:20-23 | at a mismatch the partial device holds exactly the attributes before it |
| MongoDevices.ExtractedAttributeMap | database/models/deviceattribute.go:20-34 | the attribute map of the extracted records is the device's attributes |
| MongoDevices.ExtractRoundTrip | database/models/device.go:10-27 | extracting a device's attribute records and converting them back returns its id and attributes; a device without attributes gives the empty-input error |
| MongoDevices.CreateApiDevicesFromAttributes | database/models/device.go:29-43 | records are grouped per device id and each group converted, in some order of the ids, stopping at a failure; none fails, so the result is one device per distinct device id holding exactly its records' attributes (last record of a name wins), no capabilities, and no error (internal/database/models/device.go:28-42 repeats this code over fields its package lacks) |
| MongoDevices.GroupPerDevice | database/models/device.go:30-34 | the first loop groups the records per device id, each group in input order |
| MongoDevices.GroupConverts | database/models/device.go:29-43 | every group holds exactly that device's records and converts without error |
| MongoDevices.CreationNeverFails | database/models/device.go:35-39 | grouping makes the per-group conversion error unreachable; one device per visited id |
| MongoDevices.CreatedDevices | database/models/device.go:29-43 | one device per distinct device id, with that id's attributes; empty input gives an empty map |
| Bson.OmitEmpty | internal/database/models/deviceattribute.go:9-10 | an `omitempty` string field is stored iff it is non-empty |
| InternalAttributes.ConvertToUpdate | internal/database/models/deviceattribute.go:14-18 | the update is a single `$set` of the whole record |
| InternalAttributes.UpdateDeterminesAttribute | internal/database/models/deviceattribute.go:14-18 | two records give the same update iff they are equal |
| InternalAttributes.UniqueQuery | internal/database/models/deviceattribute.go:20-23 | the query is store identifier then name |
| InternalAttributes.UniqueQueryFinds | internal/database/models/deviceattribute.go:8-23 | the query finds a stored record iff identifier and name are non-empty and both equal |
| InternalDeviceCapabilities.ConvertToApiCapability | internal/database/models/devicecapability.go:18-22 | only lastSeen crosses over |
| InternalDeviceCapabilities.ApiCapabilityKeepsOnlyLastSeen | internal/database/models/devicecapability.go:18-22 | two records convert alike iff their lastSeen agree |
| InternalDeviceCapabilities.ConvertToUpdate | internal/database/models/devicecapability.go:24-35 | `$set` of store identifier, name and bridge key, with `$currentDate` stamping lastSeen |
| InternalDeviceCapabilities.UpdateReadsBack | internal/database/models/devicecapability.go:24-35 | applying the update stores the record with lastSeen set to the current time |
| InternalDeviceCapabilities.MongoDeviceCapabilityUniqueQuery | internal/database/models/devicecapability.go:41-47 | the identifier always, the name only when non-empty |
| InternalDeviceCapabilities.UniqueQuery | internal/database/models/devicecapability.go:37-39 | a record's unique query is the query for its identifier and name |
| InternalDeviceCapabilities.UniqueQueryFinds | internal/database/models/devicecapability.go:11-47 | the query finds a stored record iff the identifier is non-empty and equal and the name is empty or equal |
| InternalDeviceCapabilities.ExtractCapabilityModels | internal/database/models/devicecapability.go:49-59 | one record per capability, names distinct and exactly the device's, store identifier and bridge key from the arguments |
| InternalGroupCapabilities.ConvertToApiCapability | internal/database/models/groupcapability.go:17-21 | only lastSeen crosses over |
| InternalGroupCapabilities.ApiCapabilityKeepsOnlyLastSeen | internal/database/models/groupcapability.go:17-21 | two records convert alike iff their lastSeen agree |
| InternalGroupCapabilities.ConvertToUpdate | internal/database/models/groupcapability.go:23-34 | `$set` of group id, name and bridge key, with `$currentDate` stamping lastSeen |
| InternalGroupCapabilities.UpdateReadsBack | internal/database/models/groupcapability.go:23-34 | applying the update stores the record with lastSeen set to the current time |
| InternalGroupCapabilities.ExtractGroupCapabilities | internal/database/models/groupcapability.go:36-46 | one record per capability of the group, names distinct and exactly the group's |
| InternalGroups.ConvertToUpdate | internal/database/models/group.go:14-26 | `$set` of id, name and bridge key, with `$currentDate` stamping lastSeen |
| InternalGroups.UpdateReadsBack | internal/database/models/group.go:14-26 | the update's fields give back the group |
| InternalGroups.ConvertToApi | internal/database/models/group.go:28-33 | identifier and name copied, no capabilities |
| InternalGroups.MongoGroupFromApiModel | internal/database/models/group.go:35-37 | identifier and name copied, bridge key from the argument |
| InternalGroups.ApiRoundTrip | internal/database/models/group.go:28-37 | an API group comes back without its capabilities |
| InternalGroups.StoredRoundTrip | internal/database/models/group.go:28-37 | a stored group comes back unchanged given its bridge key |
| CapabilitySchema.Resolve | ingestmodels/capabilityschema.go:28-44 | no errors iff exactly one of boolean, numeric, text is set; otherwise the single 400 with the one-of message |
| CapabilitySchema.VerdictDependsOnKindsOnly | ingestmodels/capabilityschema.go:28-44 | the verdict depends only on which kinds are present |
| IngestJwt.TrimLeft | internal/ingestwebapp/jwt.go:28 | the result is a suffix that does not start with a space, and everything dropped is space |
| IngestJwt.TrimRight | internal/ingestwebapp/jwt.go:28 | the result is a prefix that does not end with a space, and everything dropped is space |
| IngestJwt.TrimSpaceEmpty | internal/ingestwebapp/jwt.go:28-32 | trimming leaves nothing iff the string is all space |
| IngestJwt.TruncateTowardZero | internal/ingestwebapp/jwt.go:66-67 | a float64 converts to the integer next to it toward zero |
| IngestJwt.Atoi | internal/ingestwebapp/jwt.go:68-69 | a success is a signed digit string read as its number (leading zeros and `+` ignored), within the int64 range |
| IngestJwt.AtoiReadsItoa | internal/ingestwebapp/jwt.go:68-69 | every int64 written in decimal is read back |
| IngestJwt.AtoiAccepts | internal/ingestwebapp/jwt.go:68-69 | only an optional sign followed by digits is accepted |
| IngestJwt.AtoiReadsSignedDigits | internal/ingestwebapp/jwt.go:68-69 | conversely, every signed digit string whose number fits in int64 is accepted as that number |
| IngestJwt.AtoiSignAndZeros | internal/ingestwebapp/jwt.go:68-69 | a string adapterId of "+7" or "007" reads as 7 |
| IngestJwt.DigitCount | internal/ingestwebapp/jwt.go:68-69 | the number of decimal digits bounds the number |
| IngestJwt.ParseAdapterId | internal/ingestwebapp/jwt.go:64-77 | int and int64 as they are, float64 truncated, strings by Atoi, any other type refused |
| IngestJwt.ClaimsDecision | internal/ingestwebapp/jwt.go:48-59 | the claims either refuse with 403 or proceed with an adapter id above zero |
| IngestJwt.Decide | internal/ingestwebapp/jwt.go:16-62 | requests outside `/device-ingest/` pass through untouched, and only those |
| IngestJwt.NonHs256Refused | internal/ingestwebapp/jwt.go:33-42 | a parsed bearer token whose algorithm is not HS256 is refused with 401 "invalid token", whatever its validity and claims |
| IngestJwt.DecisionLadder | internal/ingestwebapp/jwt.go:23-59 | 401 iff the bearer token is missing, blank, unparseable, not HS256, invalid or has no claims map; otherwise 403 for a missing or bad adapterId, else proceed with the parsed id |
| IngestJwt.BlankBearerRefused | internal/ingestwebapp/jwt.go:28-32 | a bearer of only spaces is refused with 401 as a missing token |
| InternalConfig.DatabaseConfig.Validate | internal/config/config.go:22-27 | never returns an error: the host check's error is discarded |
| InternalConfig.EventConfig.Validate | internal/config/config.go:34-42 | topic checked first, then connection string; accepted iff both non-empty |
| InternalConfig.AdapterAttendantConfig.Validate | internal/config/config.go:48-53 | accepted iff the URL is non-empty |
| InternalConfig.Config.Validate | internal/config/config.go:62-73 | the first error of database, adapter attendant, event, in that order |
| InternalConfig.ConfigAccepted | internal/config/config.go:62-73 | accepted iff URL, topic and connection string are non-empty, whatever the host; an empty URL is reported first |
| InternalConfig.EmptyHostAccepted | internal/config/config.go:22-27 | as written, a configuration without a host passes, where the intended check refuses it |
| InternalConfig.DatabaseConfig.ValidateIntended | internal/config/config.go:22-27 | the intended check: refused with "must supply database host" iff the host is empty |
| InternalConfig.Config.ValidateIntended | internal/config/config.go:62-73 | the first error of the intended database check, adapter attendant, event |
| InternalConfig.IntendedConfigAccepted | internal/config/config.go:22-73 | with the intended check, accepted iff host, URL, topic and connection string are all non-empty; a missing host is reported first |
| Common.FirstError | internal/config/config.go:62-73 | none iff every check passes; otherwise the earliest failing check's error |
| Common.FirstErrorOfThree | config/config.go:82-93 | for three checks, the first error in order |
| ServiceConfig.MongoDbConfig.Validate | config/config.go:14-19 | accepted iff the connection string is non-empty |
| ServiceConfig.DatabaseConfig.Validate | config/config.go:25-31 | accepted iff the MongoDB config is; otherwise the backend message |
| ServiceConfig.HttpConfig.Validate | config/config.go:38-47 | the address is checked before the port; accepted iff both are set |
| ServiceConfig.AdapterAttendantConfig.Validate | config/config.go:53-58 | accepted iff the URL is non-empty |
| ServiceConfig.Config.constructor | config/config.go:60-65 | a new config holds the zero values |
| ServiceConfig.Config.Validate | config/config.go:82-93 | the first error of database, HTTP, adapter attendant; accepted iff connection string, address, port and adapter URL are set |
| ServiceConfig.Config.PopulateExample | config/config.go:67-80 | the fields become the example values, and the example config validates |
| SystemErrors.ApiError.Reason | internal/systemerrors/systemerrors.go:23-25 | the reason is the wrapped code |
| SystemErrors.ApiError.Error | internal/systemerrors/systemerrors.go:27-29 | the text is the wrapped error's |
| SystemErrors.WrapSystemError | internal/systemerrors/systemerrors.go:31-36 | the wrapped error reports the given reason and the error's text |
| SystemErrors.WrapRoundTrip | internal/systemerrors/systemerrors.go:18-36 | rewrapping an error's text and reason gives the same error |
| SystemErrors.ReasonCodes | internal/systemerrors/systemerrors.go:12-16 | NotFound, UserError and InternalError are 404, 400 and 500, pairwise distinct |

## Left out

- The HTTP, GraphQL and huma plumbing (routers, handlers, `webapp.go`, `router.go`, `main.go`): it only wires the modelled operations to the network.
- All database and broker I/O: SQL statements, transactions, MongoDB calls, and Kafka/event producers and consumers. The store's decisions are modelled; the statements are modelled only as the list PostDevice and postGroupTx would issue.
- The event consumer's goroutines and channels (`internal/events/consumer.go`, `internal/events/producer.go`): concurrency is not modelled.
- The adapter attendant (`adapterattendant/attendant.go`, `internal/adapterattendant/attendant.go`), with its HTTP calls and cache, and capability triggering (`internal/adapters/triggercapability.go`): these are calls to other services.
- Logging (`internal/logging/logging.go`), the `Logging` field of `config/config.go`, and the viper/environment loading in `internal/config/config.go:77-116`: these are setup and I/O.
- The JWT library: signature checking and claim decoding are a `parse` oracle passed to IngestJwt.Decide, which reports the token's `alg`, its validity and its claims. The HS256 check of the key function is modelled: Decide refuses any token whose algorithm is not HS256 with 401 "invalid token".
- JSON decoding inside the `Scan` methods: the decoder is a parameter of IntermediaryScan.Scan.
- GetDevices, GetAttributeAudits and GetGroups call a three-result filter translator that does not exist in the source (`mariadb.go:161`, `:240`, `:448`). Only the filter tables and each entry's outcome are modelled.
- The INSERT IGNORE loops for capabilities and triggers in PostDevice, and the toRest of GetDevicesCapabilityIntermediate and TriggerIntermediate: these only copy names into statements.
- The activation intermediaries and `internal/models/intermediar*`: plain records with no logic.
- IngestJwt.TruncateTowardZero: does not model what Go's `int(float64)` does for NaN or out-of-range values, which the language leaves to the platform.
- IngestJwt.ParseAdapterId: `int` is taken as 64 bits wide.
- MariadbStore.ReconciledMembership: treats groupDevices as a set in which every INSERT and DELETE succeeds. postGroupTx does not de-duplicate the ingested ids and uses a plain INSERT, so a repeated id (`[7, 7]`) issues two inserts (AdditionsPerOccurrence). Whether the second one fails or stores a second row depends on a table key that is not part of this model, and that case is outside the claim.
- internal/database/models/device.go does not type-check as it stands. It reads `DeviceId`, `AttributeName` and `AttributeState` from its attribute records, but its own package's MongoDeviceAttribute has `DeviceStoreIdentifier`, `Name` and `State` (internal/database/models/deviceattribute.go:8-12). It also writes `Identifier` and a map-valued `Attributes` into a `rest/models.Device`, which has neither. It is modelled once, by MongoDevices over the database/models record, which has the fields the code uses.
- MariadbStore.EqualRestMeans: `float32` states are exact reals, so rounding to `float32` before comparison is not modelled.
- MongoDB query matching is modelled as every queried field being present with an equal value (`Bson.Matches`); operators and type coercion are not modelled.
- Records of `devicestoretemplates` and `rest/models` are not all part of the source: they are modelled with the fields the core uses.

## Findings

| source | as written | input that shows it | evidently intended | confidence | as-written member | corrected member |
|---|---|---|---|---|---|---|
| internal/config/config.go:22-27 | for an empty host, `errors.New("must supply database host")` is built and discarded, and nil is returned | a Config with host "" and URL, topic and connection string set validates | `return errors.New(...)`: an empty host is refused first | high (not executed) | InternalConfig.EmptyHostAccepted | InternalConfig.IntendedConfigAccepted |
