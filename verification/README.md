# Verified model of the Linode Terraform provider's reconciliation, merge and filter logic

The provider keeps Terraform state and the Linode API in step. Most of it is schema and plumbing; the
modules here model the parts that decide something, branch by branch, and prove what they promise.

* `FirewallDevices`, `FirewallReconcile`: attaching and detaching firewall devices. The remote side is a map
  from device ID to assignment; every API call is a step that may fail, with or without having taken effect.
  A *run* is any sequence of steps the provider can cause; the theorems hold for every run, failure point,
  map iteration order, choice of new device IDs and history of retries.
* `FirewallResource`, `FirewallRules`: the firewall resource's `Update` and `Read` as classes and methods that
  change the plan or the state, and the rule conversion that writes into the planned rule slice.
* `Attributes`: unknown / null / known values, `KeepOrUpdateValue`, and the merge of nested objects of any shape.
* `FirewallSettings`, `DatabaseCredentials`: two resources whose merges must agree with what the server did,
  or survive whole sequences of refreshes.
* `Filter`, `FilterLatest`: the filter compiler, the client-side evaluator and the two "latest" selections.
* `Compare`: the two order-insensitive list comparisons.
* `Identifiers`, `Text`: delimited identifiers over verified `Split`, `Join` and decimal conversion.
* `Iterators`: iterator adapters with consumers that stop early.

Integers are `GoInt`, the 64-bit range. Go panics are outcomes (`Panics`, `NoConverter`, `NotText`), not
preconditions. API answers (functions of the request where there is one), the time parser, the regular expression
engine and the server's notion of equality are parameters.

## Where the code does not do what it seems to promise

Each of these is stated with a concrete input and an exact condition.

* `CompareSlices` sorts its second slice with a `less` that reads the first one, so `CompareStringSets` is not
  order-insensitive: it answers true only if the second list is already sorted, and indexes out of range when
  the second list has two or more elements and is the longer one
  (`SortingComparisonMissesReversal`, `ComparisonsAgreeIffSecondSorted`, `SortingComparisonSound`).
* `GetLatestVersion` indexes out of range when a version extends the maximum of the versions before it by
  further segments (`LongerVersionPanics`, `GetLatestVersion`, `SecondOfTwoOutgrowsIff`); otherwise it is right for versions of any
  lengths, and versions of one length never panic.
* Compiling a filter list fails on an empty value of an integer or boolean attribute, although the client would
  drop that value (`EmptyValueStopsCompilation`); `FilterDataSource` is exact about it.
* The device map of the reconciliation hides all but one of several devices with one assignment, so success
  leaves such a device attached (`HiddenDuplicateExample`, `ConvergesIffNoHiddenDuplicate`).
* `Update` never refreshes the `devices` attribute. The saved list is current exactly when no ID set differs
  from the state or the planned assignments were attached already; from an up-to-date state with known planned
  sets, any change leaves it stale (`StaleDevicesExample`, `SavedDevicesCurrentIff`, `ChangedSetsLeaveDevicesStale`).
* An ID set that is null in state, as when the state was written without the attribute and not refreshed, stays
  null in a plan that does not configure it, and counts as empty as soon as another set changes: its entities are
  detached, and null is saved where a refresh finds the empty set (`NullSetDetachesExample`;
  `OpenSetKeepsEntitiesIff` says exactly when the entities stay, `ApplyThenRefresh` when saved and refreshed agree).
* Changing `disabled` changes the status on the server, but the plan carries the old status over from the state
  (linode/firewall/framework_schema_resource.go:179-185) and the known-preserving merge keeps it: the saved status
  is right exactly when `disabled` does not change (`StaleStatusExample`, `SavedStatusCurrentIff`).
* `Read` after a failed rule refresh hands back refreshed linodes beside old node balancers, interfaces and devices:
  as good as a full read exactly if those three were current (`PartialReadExample`, `PartialReadCompleteIff`, `Read`).

## Model

| member | source | states |
|---|---|---|
| `FirewallDevices.MakeBeforeBreak` | linode/firewall/helpers.go:37-77 | at every point of every run: a device that was present and is configured keeps its device ID, only unconfigured devices are asked to be deleted, and once a delete was issued every configured assignment is attached |
| `FirewallDevices.ExactReconciliation` | linode/firewall/helpers.go:26-78 | for distinct assignments a successful run creates exactly configured minus current, deletes exactly the unconfigured devices, each once, creations first, and leaves the configured assignments |
| `FirewallDevices.SuccessfulRunLeaves` | linode/firewall/helpers.go:37-77 | whatever the start, success leaves the configured assignments plus the unconfigured ones that were attached more than once |
| `FirewallDevices.ConvergesIffNoHiddenDuplicate` | linode/firewall/helpers.go:38-41 | success leaves exactly the configured assignments if and only if no unconfigured assignment was attached twice |
| `FirewallDevices.HiddenDuplicateExample` | linode/firewall/helpers.go:38-41 | two devices with one unconfigured assignment: a successful run leaves one of them |
| `FirewallDevices.NoCallsIff` | linode/firewall/helpers.go:43-75 | there is nothing to create or delete if and only if the configuration is duplicate-free and is what is attached |
| `FirewallDevices.SecondRunIsIdle` | linode/firewall/helpers.go:26-78 | after a successful run a second run issues no call if and only if the configuration is duplicate-free and no unconfigured assignment was attached twice at first, however the API lists the devices |
| `FirewallDevices.DistinctThroughout` | linode/firewall/helpers.go:43-75 | distinct assignments stay distinct at every point of every run, also after failing calls that took effect |
| `FirewallDevices.HistoryConverges` | linode/firewall/helpers.go:26-78 | over any history of failed and successful attempts configured devices keep their IDs, and the first success leaves exactly the configured assignments |
| `FirewallDevices.ListingStaysCurrentIff` | linode/firewall/helpers.go:32-77 | any listing from before a successful run lists the devices after it if and only if the configuration was duplicate-free and already attached, which is when the run made no call |
| `FirewallDevices.DeviceMapReflectsRemote` | linode/firewall/helpers.go:37-41 | the device map's keys are the attached assignments and its values devices that attach them |
| `FirewallDevices.ToCreateDistinct` | linode/firewall/helpers.go:43-64 | a duplicate-free configuration creates exactly the missing assignments, each once |
| `FirewallDevices.NothingToCreateIff` | linode/firewall/helpers.go:43-64 | nothing is created if and only if the configuration is duplicate-free and fully attached |
| `FirewallDevices.ConfiguredDistinct` | linode/firewall/framework_resource.go:215-235 | the assignment list built from three duplicate-free ID lists is duplicate-free |
| `FirewallDevices.ConfiguredByKind` | linode/firewall/framework_models.go:431-439 | reading that list back by kind gives the three ID sets |
| `FirewallDevices.EntityIDsOfListing` | linode/firewall/framework_models.go:431-439 | reading a listing by kind gives the attached entity IDs of that kind |
| `FirewallDevices.ApplyThenRefreshEqualsPlan` | linode/firewall/framework_models.go:184-213 | after a successful run any listing reads back the planned three sets if and only if no unconfigured entity of these kinds was attached twice |
| `FirewallReconcile.DeviceApi.List` | linode/firewall/helpers.go:32-35 | a successful listing has every remote device once, in any order |
| `FirewallReconcile.DeviceApi.CreateDevice` | linode/firewall/helpers.go:60-63 | creation attaches the assignment under an unused ID, or fails with or without that effect |
| `FirewallReconcile.DeviceApi.DeleteDevice` | linode/firewall/helpers.go:72-74 | deletion removes the device, or fails with or without that effect |
| `FirewallReconcile.BuildDeviceMap` | linode/firewall/helpers.go:37-41 | the loop over the listed devices builds the map in which the last of equal assignments wins |
| `FirewallReconcile.CreateMissing` | linode/firewall/helpers.go:43-64 | the first loop makes the planned creations in order, stops at the first failure, and leaves the unclaimed devices |
| `FirewallReconcile.DeleteUnclaimed` | linode/firewall/helpers.go:67-75 | the second loop deletes the unclaimed devices in map order and stops at the first failure |
| `FirewallReconcile.UpdateFirewallDevices` | linode/firewall/helpers.go:26-78 | the calls recorded by the API form a reconciliation run from the devices at entry, successful exactly when no error is returned; only a failed listing makes no run |
| `FirewallReconcile.AggregateEntityIDs` | linode/firewall/framework_models.go:431-439 | the loop collects the entity IDs of one kind in list order |
| `FirewallResource.Update` | linode/firewall/framework_resource.go:137-247 | on success the attributes are merged from plan, the answer to the request the plan calls for, and state; the rule blocks are merged in place with the answer to the expanded blocks and policies if those differ; a device reconciliation took place exactly if an ID set changed; from an up-to-date state, known planned sets and distinct assignments the saved sets are the planned ones and the attached ones; the saved device list is current exactly if no set changed or the plan was attached already; it fails only for a listed reason, and any device run of a failed update is still a reconciliation run |
| `FirewallResource.PlannedSetsAttachedIff` | linode/firewall/framework_resource.go:199-246 | from an up-to-date state and known planned sets, the planned sets are attached afterwards if and only if all three equal those of the state or nothing of a managed kind was attached twice; a change of any one set suffices to reconcile |
| `FirewallResource.UpdatedSetsAttachedIff` | linode/firewall/framework_resource.go:199-243 | after a device update the three planned sets are what is attached if and only if no unplanned entity of a managed kind was attached twice |
| `FirewallResource.UnchangedNeedsNoAnswer` | linode/firewall/framework_models.go:162-182 | label, tags and `disabled` as in state: no firewall request, nothing merged; blocks and policies as in state: no rule request, blocks as planned |
| `FirewallResource.ServerRulesMatchPlan` | linode/firewall/framework_resource.go:175-196 | whether or not the rules were sent, a server whose rules and policies the state described ends up with the planned rules and the merged policies |
| `FirewallResource.SavedPoliciesSurviveReadIff` | linode/firewall/framework_models.go:236-256 | each policy an update saved is what a later read of that server gives if and only if it was known, or left open over an empty one |
| `FirewallResource.GetUpdateOptions` | linode/firewall/framework_models.go:162-182 | the request names exactly what changed, with its planned value, "disabled" for true and "enabled" otherwise; fails exactly on tags that changed to unknown |
| `FirewallResource.SavedDescribesServerIff` | linode/firewall/framework_models.go:162-256 | against a server that obeys the request, the saved label, tags, `disabled` and status describe the firewall if and only if the plan has none of the first three null, empties no label, and leaves the status open or foresees the one `disabled` asks for |
| `FirewallResource.SavedStatusCurrentIff` | linode/firewall/framework_models.go:176-254 | with the status carried over from state, the saved status is the server's if and only if `disabled` does not change |
| `FirewallResource.StaleStatusExample` | linode/firewall/framework_models.go:176-254 | disabling an enabled firewall saves the status enabled |
| `FirewallResource.SentBlocksSurviveRefreshIff` | linode/firewall/framework_resource.go:175-196 | against an API that stores the rules it is sent, the blocks saved by an update that sends them are the refreshed ones if and only if no planned string is null and no port string empty |
| `FirewallResource.UpdateMergeLaw` | linode/firewall/framework_models.go:330-352 | every attribute saved by an update is the first non-unknown of plan, answer and state; none is unknown if none in state is; a known plan is saved unchanged |
| `FirewallResource.SavedDevicesCurrentIff` | linode/firewall/framework_resource.go:199-246 | the device list saved by an update is the one state held, and is current if and only if no ID set changed or the planned assignments were attached already |
| `FirewallResource.ChangedSetsLeaveDevicesStale` | linode/firewall/framework_resource.go:199-246 | from a state that is up to date, with known planned sets, the saved device list is current if and only if no ID set changed |
| `FirewallResource.StaleDevicesExample` | linode/firewall/framework_resource.go:199-246 | planning no linode where one is attached: a successful update saves a list with the detached device |
| `FirewallResource.Read` | linode/firewall/framework_resource.go:84-135 | exactly when the resource is removed or the read fails; otherwise every attribute of the firewall takes the value of the field it is named after, and the device attributes and both rule blocks become what the rule and device calls, whichever failed, allow: a clean read makes all of them a function of the API's answers |
| `FirewallResource.PartialReadCompleteIff` | linode/firewall/framework_models.go:184-213 | a read that missed only the rules gives all attributes of a full read if and only if node balancers, interfaces and devices were current |
| `FirewallResource.PartialReadExample` | linode/firewall/framework_resource.go:131-132 | an attached node balancer that a full read finds and a read without the rules does not |
| `FirewallResource.ApplyThenRefresh` | linode/firewall/framework_resource.go:84-247 | update then read yields the planned ID sets if and only if no unplanned entity was attached twice, hence always from distinct assignments; the read then leaves a saved set alone if and only if it was planned, or left open over an empty one |
| `FirewallResource.NullSetDetachesExample` | linode/firewall/framework_resource.go:199-246 | a set that is null in state and not known in the plan counts as empty when another set changes: its entity is detached, null is saved, and a refresh finds the empty set |
| `FirewallResource.OpenSetKeepsEntitiesIff` | linode/firewall/framework_resource.go:199-243 | the entities of a kind whose planned set is null or unknown stay attached if and only if no set changed or each was attached twice |
| `FirewallResource.UpdateFirewallAndRules` | linode/firewall/framework_resource.go:157-197 | the first two branches merge the answers to the requests the plan calls for, exactly when firewall or rules changed, and succeed exactly when these requests can be built and are answered |
| `FirewallResource.ExpandFirewallRuleSet` | linode/firewall/framework_models.go:107-124 | the rule set sent is the expansion of both blocks with both policies; fails exactly on an unknown address |
| `FirewallResource.UpdateRules` | linode/firewall/framework_resource.go:175-196 | both rule blocks are merged in place with the answer to exactly their expansion, or on failure both are unchanged; fails exactly when a block does not expand or the call fails |
| `FirewallResource.UpdateDevices` | linode/firewall/framework_resource.go:199-243 | the assignment list configures exactly the elements of the three planned sets, each once |
| `FirewallResource.BuildAssignments` | linode/firewall/framework_resource.go:215-235 | the three loops concatenate the IDs tagged with their kinds |
| `FirewallResource.ExpandFwInt64Set` | linode/helper/expand.go:53-72 | each element of the set once, in some order; none for null or unknown |
| `FirewallResource.FirewallResourceModel.FlattenFirewall` | linode/firewall/framework_models.go:236-256 | an answer is merged into the attributes it speaks about and leaves the device attributes |
| `FirewallResource.FirewallResourceModel.CopyFrom` | linode/firewall/framework_models.go:330-352 | attribute-wise merge with another model; rule slices are shared only when overwriting |
| `FirewallResource.FirewallResourceModel.FlattenDevices` | linode/firewall/framework_models.go:184-213 | the four device attributes from a listing; with an earlier error only the linodes, overwritten |
| `FirewallResource.RefreshDevices` | linode/firewall/helpers.go:80-95 | an overwriting refresh makes the three sets the attached entity IDs by kind |
| `FirewallResource.RefreshRules` | linode/firewall/helpers.go:97-112 | an overwriting refresh makes both blocks the models of the API's rules |
| `FirewallRules.ExpandFirewallRules` | linode/firewall/framework_models.go:94-101 | all rules are expanded position by position, or some rule has an unknown address |
| `FirewallRules.FlattenFirewallRules` | linode/firewall/framework_models.go:383-429 | preserving writes the merge into the given slice itself, a nil slice gives an empty one; overwriting fills a new slice and leaves the old one |
| `FirewallRules.ExpandInvertsFlatten` | linode/firewall/framework_models.go:72-92 | expanding the overwriting flatten of any API rule list returns it |
| `FirewallRules.FlattenInvertsExpandIff` | linode/firewall/framework_models.go:383-429 | a rule list survives expanding and flattening if and only if its strings and addresses are known and ports are null or non-empty |
| `FirewallRules.PreservingMergeLaws` | linode/firewall/framework_models.go:398-427 | preserving keeps every field that is not unknown, fills unknown fields of rule i from API rule i, and leaves rules beyond the answer |
| `FirewallRules.FieldsKeepTheirNames` | linode/firewall/framework_models.go:72-92 | every rule field is sent as the API field of its name and read from it; only an empty port string becomes null; expansion fails exactly on an address list that cannot be read |
| `FirewallRules.NoDriftAfterApplyIff` | linode/firewall/framework_models.go:72-92 | against an API that stores what it is sent, saved and refreshed rules agree if and only if no planned string is null and no port string empty |
| `Attributes.MergeChainTakesFirst` | linode/helper/framework_data.go:112-119 | any chain of preserving merges ends in the first non-unknown of its sources |
| `Attributes.PreservingIsDeepMerge` | linode/helper/framework_data.go:156-204 | at every path of every nested shape: a null object stays null at its depth, an unknown object is replaced as a whole, known leaves are kept and unknown ones take the API's value |
| `Attributes.OverwriteIsTotal` | linode/helper/framework_data.go:156-204 | without preserving, the result is the API's value at every path |
| `Attributes.ViewsDetermineNode` | linode/helper/framework_data.go:156-204 | two values of a shape whose objects all have attributes are equal if they agree at every path, so the path laws determine the merge |
| `Attributes.OverwriteForgets` | linode/helper/framework_data.go:156-204 | overwriting any two values with the same API value gives the same result |
| `Attributes.NothingUnknownRemains` | linode/helper/framework_data.go:156-204 | after a nested merge nothing unknown is left at any path |
| `FirewallSettings.FirewallSettingsModel.GetUpdateOptions` | linode/firewallsettings/framework_models.go:29-84 | sends exactly the fields that are not unknown, with value or explicit null; nothing if all are unknown; fails unless the object is known |
| `FirewallSettings.AgreementIffAllSent` | linode/firewallsettings/framework_models.go:86-118 | preserving and overwriting merge of the answer agree for every server state if and only if every non-unknown field was sent as planned |
| `FirewallSettings.FirewallSettingsModel.UpdateFirewallSettings` | linode/firewallsettings/framework_resource.go:120-146 | the answer is what a server holds after receiving every planned field and no unknown one, and what the update saves is what an overwriting refresh of the answer gives |
| `DatabaseCredentials.Model.Refresh` | linode/databasemysqlv2/framework_models.go:95-135 | succeeds exactly if the status is "suspended" or "suspending" or both further calls succeed; a failed refresh changes nothing, a suspended or suspending database turns unknown to null and reads nothing else, any other delivers certificate, password and username to the attributes of those names |
| `DatabaseCredentials.Model.Flatten` | linode/databasemysqlv2/framework_models.go:170-189 | nothing is unknown afterwards: each attribute is the first non-unknown of its old value (skipped when overwriting with a delivered one) and the delivered value, or null if none was delivered |
| `DatabaseCredentials.LastReplacingWins` | linode/databasemysqlv2/framework_models.go:95-189 | after any run the three attributes are those of the last overwriting refresh that found the database running, all of one response |
| `DatabaseCredentials.WithoutReplacement` | linode/databasemysqlv2/framework_models.go:95-189 | without such a refresh known attributes never change and unknown ones are settled by the first refresh that succeeds |
| `DatabaseCredentials.OverwritingRun` | linode/databasemysqlv2/framework_models.go:95-189 | for overwriting runs with arbitrary statuses: the most recent running response, or the initial values with unknown turned to null |
| `Filter.FilterResults` | linode/helper/filter.go:178-200 | the loop computes the selection under the whole filter list, or its first error |
| `Filter.ItemMatchesFilter` | linode/helper/filter.go:420-449 | the loop stops at the first filter that fails or rejects |
| `Filter.SelectMeaning` | linode/helper/filter.go:178-200 | whenever filtering succeeds it returns, in order, exactly the items that every filter accepts |
| `Filter.EvaluateMeaning` | linode/helper/filter.go:451-566 | a successful evaluation is true exactly if a non-empty value converts to the attribute or one of its elements (exact), or to a text that is some part of it (substring), or to a pattern it matches (regex) |
| `Filter.ContainsIff` | linode/helper/filter.go:539-539 | a text contains another if and only if it is that text between some prefix and some suffix |
| `Filter.SubstringExample` | linode/helper/filter.go:531-545 | "my-web-1" is kept by a substring filter on "web" |
| `Filter.TypedFilters` | linode/helper/filter.go:599-609 | an exact filter accepts a text that is among its values, an integer one of its values parses to, a boolean one of its values spells |
| `Filter.ConvertersMeaning` | linode/helper/filter.go:599-609 | which strings the three converters accept |
| `Filter.EvaluateFailsIff` | linode/helper/filter.go:434-566 | evaluation fails if and only if the attribute is missing or of an unsupported kind, or a value is reached that does not convert, is no text, or cannot be used as text or pattern |
| `Filter.MatchesFailsIff` | linode/helper/filter.go:420-449 | a filter list fails on an item if and only if some filter does and all before it accept |
| `Filter.ErrorsNameTheirCause` | linode/helper/filter.go:434-566 | every error and panic of a filter has the cause it names |
| `Filter.SelectError` | linode/helper/filter.go:178-200 | a failing selection reports what some filter failed with on the first item that fails |
| `Filter.ConstructFilterString` | linode/helper/filter.go:112-175 | compiles exactly when every value of every pushed-down filter converts, and then to the clauses of exactly the exact filters on attributes the API can filter; a failure names a value that does not convert |
| `Filter.QueryMeaning` | linode/helper/filter.go:122-162 | the query admits exactly the items that every pushed-down filter accepts on the server, empty values included |
| `Filter.PushdownPreservesMeaning` | linode/helper/filter.go:112-200 | for every item list and every reflexive server equality, filtering what the server returns equals filtering everything if that succeeds; no error is introduced, and one remains if and only if the server accepts an item that causes it |
| `Filter.PushdownInvisibleWhenWellTyped` | linode/helper/filter.go:420-529 | on items that carry the named attributes with fitting values evaluation cannot fail and pushdown is invisible |
| `Filter.FilterDataSource` | linode/helper/filter.go:203-255 | fails if and only if the filter list does not compile or the server accepts an item on which a filter fails; otherwise returns exactly the items the client accepts, in order; where filtering everything succeeds it agrees if and only if the list compiles |
| `Filter.ServedFailsIff` | linode/helper/filter.go:178-255 | filtering the served items fails if and only if an item that every pushed-down filter accepts on the server makes a filter fail |
| `Filter.EmptyValueStopsCompilation` | linode/helper/filter.go:141-145 | an empty value on an integer attribute stops the compilation though the client drops it |
| `Filter.FilterInStages` | linode/helper/filter.go:178-200 | filtering by f1 ++ f2 succeeds exactly when filtering in two stages does, with the same result |
| `Filter.FilterOrderIrrelevant` | linode/helper/filter.go:420-449 | lists with the same filters in any order agree whenever both succeed |
| `Filter.DropEmptyStrings` | linode/helper/expand.go:11-19 | the loop drops the empty strings |
| `Filter.ExpandStringListMembers` | linode/helper/expand.go:11-19 | exactly the non-empty strings remain |
| `Filter.ExpandStringListAppend` | linode/helper/expand.go:11-19 | the order is kept |
| `FilterLatest.GetLatestCreated` | linode/helper/filter.go:323-348 | nil exactly when no entity has a created time or one does not parse; otherwise the first with the maximal time |
| `FilterLatest.GetLatestVersion` | linode/helper/filter.go:370-418 | for any list: when it panics, when it fails to parse, and otherwise the first lexicographic maximum, or nil if none exceeds the zeros |
| `FilterLatest.Exceeds` | linode/helper/filter.go:404-414 | the comparison loop finds a first difference where the version is larger, or none; out of range exactly when the maximum is a proper prefix of the version |
| `FilterLatest.BeforeIff` | linode/helper/filter.go:404-414 | the version order: a proper prefix, or smaller at the first difference |
| `FilterLatest.AboveZerosIff` | linode/helper/filter.go:395-414 | which versions exceed the starting zeros |
| `FilterLatest.RunningMaxIsMaximum` | linode/helper/filter.go:395-415 | the running maximum is an attained upper bound of the zeros and the versions so far |
| `FilterLatest.UniformVersionsNeverPanic` | linode/helper/filter.go:395-414 | with one segment count every index is in range |
| `FilterLatest.SecondOfTwoOutgrowsIff` | linode/helper/filter.go:395-414 | for two versions, the second is out of range if and only if it properly extends the running maximum |
| `FilterLatest.LongerVersionPanics` | linode/helper/filter.go:404-414 | "8" followed by "8.0" panics: the first version is fine and the second is out of range |
| `Compare.StringListElementsEqual` | linode/helper/compare.go:48-63 | true if and only if the multisets are equal |
| `Compare.CompareSlices` | linode/helper/compare.go:110-124 | an unordered call sorts the first slice in place, leaves the second in its order, and answers or panics accordingly; an ordered call changes nothing; a slice equals itself |
| `Compare.CompareStringSets` | linode/helper/compare.go:91-93 | panics if and only if the second list has two or more elements and is longer; true if and only if it is the first list arranged in dictionary order |
| `Compare.AtMostIffInOrder` | linode/helper/compare.go:115-117 | the order is the dictionary order: a prefix first, otherwise by the first difference |
| `Compare.PrefixFirstExample` | linode/helper/compare.go:91-93 | "prod" before "production" compares as equal, the reverse does not |
| `Compare.SortSlice` | linode/helper/compare.go:115-121 | sorting with the slice's own elements sorts; sorting with another sorted slice's elements moves nothing and panics past its end |
| `Compare.SortedPermutationUnique` | linode/helper/compare.go:115-123 | two sorted lists with equal multisets are equal |
| `Compare.SortingComparisonMissesReversal` | linode/helper/compare.go:115-123 | a two-element list differs from its reversal, and a longer second list panics |
| `Compare.ComparisonsAgreeIffSecondSorted` | linode/helper/compare.go:83-124 | the sorting comparison is multiset equality for every first list of at least the same length if and only if the second list is sorted, and for every first list if and only if it has at most one element |
| `Compare.SortingComparisonSound` | linode/helper/compare.go:83-124 | true and panic are never wrong about multiset equality; symmetric truth means equal sorted lists |
| `Compare.CompareScopes` | linode/helper/compare.go:95-108 | true if and only if the space-split scopes are equal as multisets, the full-account branches included |
| `Identifiers.ParseFormatID` | linode/databaseaccesscontrols/resource.go:194-210 | parsing a formatted ID returns the pair if and only if the type has no colon, and fails otherwise |
| `Identifiers.ParseIDIff` | linode/databaseaccesscontrols/resource.go:198-210 | an ID parses to a pair if and only if it is that integer's numeral, a colon and the type, with no other colon |
| `Identifiers.FormatParseID` | linode/databaseaccesscontrols/resource.go:194-210 | any ID that parses is equivalent to the one formatted from its parts |
| `Identifiers.ParseSlugIff` | linode/helper/database.go:95-102 | parsing a slug gives two parts if and only if it is those slash-free parts around one slash |
| `Identifiers.MajorVersionIff` | linode/helper/database.go:92-92 | the major version is the text before the first dot, or all of it |
| `Identifiers.ParseCreatedSlugIff` | linode/helper/database.go:87-102 | a built slug parses back if and only if its parts are slash-free, in both forms |
| `Identifiers.ReslugStable` | linode/helper/database.go:87-102 | building a slug again from a parsed built slug changes nothing |
| `Identifiers.ImportStateWithMultipleIDs` | linode/helper/framework_import.go:65-112 | succeeds if and only if the part count matches, no part is empty and all convert; a failure has written the fields before the first bad part |
| `Identifiers.JoinedPartsImport` | linode/helper/framework_import.go:82-85 | a ", "-joined list of parts without spaces and commas splits into exactly those parts |
| `Identifiers.JoinedStringsImport` | linode/helper/framework_import.go:24-26 | with string converters every non-empty part imports as itself |
| `Identifiers.JoinedIntsImport` | linode/helper/framework_import.go:28-32 | printed 64-bit integers import as those integers |
| `Identifiers.WrittenHolds` | linode/helper/framework_import.go:92-111 | with distinct field names each field holds its own part |
| `Identifiers.WrittenKeepsOthers` | linode/helper/framework_import.go:92-111 | attributes no written field names keep what the state held |
| `Identifiers.ImportPartsMeaning` | linode/helper/framework_import.go:82-85 | the parts hold no space and no comma, and joined by commas they are the ID without spaces |
| `Identifiers.SpaceIgnored` | linode/helper/framework_import.go:82-83 | a space anywhere in the ID makes no difference |
| `Text.SplitJoin` | linode/helper/database.go:96-96 | splitting undoes joining for separator-free parts |
| `Text.JoinSplit` | linode/databaseaccesscontrols/resource.go:199-199 | joining undoes splitting, and no part holds the separator |
| `Text.AtoiItoa` | linode/databaseaccesscontrols/resource.go:195-204 | parsing a printed 64-bit integer returns it |
| `Text.AtoiIff` | linode/databaseaccesscontrols/resource.go:204-204 | exactly which strings parse to an integer: digits, a sign allowed in front |
| `Text.AtoiRange` | linode/databaseaccesscontrols/resource.go:204-204 | a printed number parses if and only if it is in the 64-bit range |
| `Text.ParseNatIff` | linode/databaseaccesscontrols/resource.go:204-204 | digits parse to a number if and only if they are its printed form after leading zeros |
| `Text.PrintedDecimal` | linode/databaseaccesscontrols/resource.go:194-196 | the printed form is decimal and has no leading zero |
| `Iterators.Map` | linode/helper/iterator.go:10-18 | a consumer sees the transformed values up to where it stops |
| `Iterators.Filter` | linode/helper/iterator.go:49-61 | a consumer sees the valid values up to where it stops |
| `Iterators.MapSlice` | linode/helper/iterator.go:32-34 | every value transformed, in order |
| `Iterators.FilterSlice` | linode/helper/iterator.go:64-66 | all valid values |
| `Iterators.FilteredMembers` | linode/helper/iterator.go:49-61 | exactly the valid values remain |
| `Iterators.FilteredAppend` | linode/helper/iterator.go:49-61 | filtering distributes over concatenation, so it keeps the order |
| `Iterators.DropDuplicates` | linode/helper/framework_util.go:50-68 | a consumer sees the first occurrences up to where it stops |
| `Iterators.StopAfterK` | linode/helper/iterator.go:10-18 | a consumer that stops after k items sees exactly the first k |
| `Iterators.SeesPrefix` | linode/helper/iterator.go:10-18 | any consumer sees a prefix, and stops only where it declined to go on |
| `Iterators.DeduplicatedKeys` | linode/helper/framework_util.go:50-68 | every key occurs once, every given key occurs |
| `Iterators.DeduplicatedAppend` | linode/helper/framework_util.go:50-68 | a further value is kept exactly if its key is new: first occurrences, in order |
| `Iterators.DeduplicationIdempotent` | linode/helper/framework_util.go:50-68 | deduplicating twice is deduplicating once |

## Left out

- `Create` and `Delete` of the firewall resource, and the other resources: the same merges along simpler paths.
- Plan modifiers, defaults and validators of the schema: plan and state are arbitrary values.
- Device labels and URLs: copied field by field; `devices` holds device ID, entity ID and type.
- CompareSlices: slices of strings that are not nil; mixed element types and the nil-versus-empty distinction are not modelled.
- SortSlice: models the insertion sort Go uses for up to 12 elements. For longer slices Go's sort also leaves a slice alone when `less` never holds for neighbours, and also reads past a shorter key slice.
- Null or unknown elements inside an ID set: elements are integers.
- FirewallResource.FirewallResourceModel.CopyFrom: the attributes outside the rule blocks are one record field, updated attribute by attribute.
- ConstructFilterString: the query is a list of clauses, not JSON text; `order_by` is not modelled.
- FilterResults: regular expressions and RFC 3339 parsing are parameters; float and 32-bit kinds are one opaque kind; a nil attribute value counts as an unsupported kind.
- PreservingIsDeepMerge: the flatten callback is the attribute-wise one, and conversions between objects and models cannot fail because values fit their types.
- FlattenFirewallRules: string-list conversion cannot fail, so its early nil return is not reachable; address values are plain strings; an API pointer to a nil slice is identified with a nil pointer.
- UpdateFirewallDevices: nobody else changes the firewall's devices while it runs.
- ImportStateWithMultipleIDs: writing an attribute into the state cannot fail.
- Refresh: the attributes other than certificate and credentials, and the engine configuration.
- The text of diagnostics, logging, timeouts, polling and HTTP.
