# cove analysis core, modelled in Dafny

This project models the analysis engine of the cove data-quality tool (`cove/lib/common.py`). The engine compares a parsed JSON document with a JSON Schema, in this case that of the Open Contracting Data Standard (OCDS). The model covers the following parts:

- **Schema selection.** `SchemaOCDS.__init__` chooses the schema version and host from the version argument and the data's `version`. It lists the data's `extensions` and builds the three schema URLs.
- **Extensions.** `SchemaOCDS.apply_extensions` records each extension as applied or invalid. It stops where Python raises.
- **URL rewrites.** These are the rewrites that the `$ref` loaders (lines 47 and 62-63) and the extension patch URL (lines 190-191) perform.
- **Validation.** This covers the `unique_ids` and `required_draft4` validators, and the loop of `get_schema_validation_errors`. That loop turns the validator's error stream into a report grouped by `[validator_type, message, path_no_number]`.
- **Field coverage.** Three functions are modelled: `fields_present_generator`/`get_fields_present`, `schema_dict_fields_generator` and `get_counts_additional_fields`.
- **Deprecation.** This covers `_get_schema_deprecated_paths`, `_get_json_data_generic_paths` and `get_json_data_deprecated_fields`.
- **Codelists.** This covers `add_is_codelist`, `_get_schema_codelist_paths`, `_generate_data_path` and `get_additional_codelist_values`.

JSON values are the `JsonValues.Json` datatype. Python's `==` and hashing make `True == 1` and `False == 0`, so sets and dict keys use `JsonValues.PyKey`, which reads a boolean as that number; a Python `set` is a `PySet`, which maps each key to the element first added under it. A dict is a sequence of members in insertion order, so Python's dict order is kept. The `SetKey` function models `d[k] = v`: an existing key keeps its place and a new key goes last. Python's exceptions are modelled in one of two ways:

- An `Option` result, `None` where Python raises, wherever the cause is in the data. This covers a non-string extension name, a `required`/`enum` error path that is too short, an unhashable codelist value, a deprecated field recorded for an empty list, and a non-dict value in `_generate_data_path`.
- A documented precondition on the schema's shape (`SchemaTree.SchemaShape`) where the cause is a malformed schema.

The modules follow the source:

- `Text`: `str` operations.
- `JsonValues`: values, dicts and paths.
- `SchemaTree`: how a schema node is read and the property walk that lines 463-485, 560-570 and 588-601 share.
- `SchemaSelection`.
- `Validation`.
- `FieldCoverage`.
- `Deprecation`.
- `GenericPaths`.
- `DeprecatedFields`.
- `Codelists`.

Each recursive walk that builds its result by mutation is a `method` that updates the accumulator. It is proved equal to a function of the walk: `Walked`, `Events`, `RecordAll` or `DeprecatedOf`. Lemmas then say what that function means in terms of the schema or the data (`Reaches`, `At`).

## Model

| member | source | states |
|---|---|---|
| SchemaSelection.UrlJoinDirectory | cove/lib/common.py:63 | joining a name to a base with a slash keeps the base's directory, up to its last slash, and appends the name |
| SchemaSelection.UrlJoinLastSegment | cove/lib/common.py:63 | a slash-free name joined to a base becomes the last segment of the URL |
| SchemaSelection.UrlJoinAppends | cove/lib/common.py:182-184 | a host ending with a slash is a directory: the schema name is appended to it |
| SchemaSelection.RefUriLastSegment | cove/lib/common.py:47 | a `$ref` is rewritten using only its last segment, so any directory before it is ignored; on a schema URL ending in a slash the rewrite is idempotent |
| SchemaSelection.EndsWithSlash | cove/lib/common.py:47 | after a text ending with a slash, a slash-free name is the last segment |
| SchemaSelection.PatchUrlLastSlash | cove/lib/common.py:189-190 | the patch URL's last slash is the one after the head, and its last segment is `release-schema.json` |
| SchemaSelection.PatchUrlReplacesLastSegment | cove/lib/common.py:189-190 | for a descriptor URL with a slash, the patch URL replaces the URL's last segment with `release-schema.json` |
| SchemaSelection.PatchUrlWithoutSlash | cove/lib/common.py:189-190 | without a slash, `rfind` gives -1 and the slice drops the URL's last character |
| SchemaSelection.PatchUrlIdempotent | cove/lib/common.py:189-190 | building the patch URL of a patch URL gives it back |
| SchemaSelection.Dedup | cove/lib/common.py:168 | the keys of `{ext: () for ext in ...}`: every key is one of the values, and no two keys are equal for Python (`True == 1`) |
| SchemaSelection.DedupCovers | cove/lib/common.py:168 | a value has an equal key exactly when it equals, for Python, one of the values |
| SchemaSelection.DedupFirst | cove/lib/common.py:168 | the keys are exactly the first spelling of each Python-equal group of values, since a repeated key keeps its first spelling |
| SchemaSelection.SelectedIsChoice | cove/lib/common.py:144-178 | the selected version is always one of the choices and the host is its host; a valid argument is never flagged |
| SchemaSelection.ValidArgumentWins | cove/lib/common.py:154-164 | a valid version argument is used whatever the data says, and nothing is flagged |
| SchemaSelection.InvalidArgumentFallsBack | cove/lib/common.py:155-160 | an invalid argument is flagged and otherwise treated as no argument |
| SchemaSelection.DataVersionChoice | cove/lib/common.py:170-178 | without a valid argument, a truthy data version that is a choice is used; any other truthy data version is flagged and the default kept; no data version keeps the default unflagged |
| SchemaSelection.ExtensionsOnePerName | cove/lib/common.py:166-168 | a name is an extension exactly when it is the first spelling, for Python's `==`, of a name in the data's `extensions` list; every listed name has an equal extension, and no two extensions are equal |
| SchemaSelection.ChooseVersion | cove/lib/common.py:144-178 | the version, host and both flags the constructor computes are those of `Selected` |
| SchemaSelection.PendingExtensions | cove/lib/common.py:166-168 | the extension names are those of `Selected`, none yet applied |
| SchemaSelection.SchemaOcds.constructor | cove/lib/common.py:136-184 | the object's choice is `Selected(config, selectVersion, releaseData)`; no extension is applied or invalid; the three schema URLs join the host and the configured names |
| SchemaSelection.OutcomeInvalid | cove/lib/common.py:193-205 | a name is recorded as invalid exactly when it is a string and its patch fetch fails, answers not-OK or is not JSON; it is recorded under itself |
| SchemaSelection.OutcomeExtended | cove/lib/common.py:207-213 | a name is applied exactly when its patch is JSON and its descriptor has `name` and `description`; the record keeps the patch URL |
| SchemaSelection.OutcomesAt | cove/lib/common.py:188 | the outcome at position `i` is that of the `i`-th name |
| SchemaSelection.RunExtensions | cove/lib/common.py:207-213 | after the loop, each handled name holds its applied record if it applied, and its old value otherwise |
| SchemaSelection.RunExtended | cove/lib/common.py:213 | `extended` is set exactly when it was already set or some handled name applied |
| SchemaSelection.RunInvalid | cove/lib/common.py:193-205 | for distinct names, each name that failed is recorded with its message, and a name that did not fail keeps its old record |
| SchemaSelection.RunInvalidRecorded | cove/lib/common.py:193-205 | the only handled name that failed as `k` leaves its message under `k` |
| SchemaSelection.RunInvalidKept | cove/lib/common.py:193-205 | with no handled name failing as `k`, the record of `k` is unchanged |
| SchemaSelection.OutcomesInvalidDistinct | cove/lib/common.py:188-205 | distinct names never produce two invalid records for the same key |
| SchemaSelection.HandleExtensions | cove/lib/common.py:188-213 | the loop succeeds exactly when no name raises; it then ends in `Run` over all names, and otherwise in `Run` up to the first name that raises |
| SchemaSelection.SchemaOcds.ApplyExtensions | cove/lib/common.py:186-213 | the object's `extensions`, `invalid_extension` and `extended` become `Run` over the fetch outcomes of its names, up to the first that raises; nothing else changes |
| Validation.Ids | cove/lib/common.py:282-286 | `item.get('id')` for each item, `None` for an item that is not a dict |
| Validation.IdsStep | cove/lib/common.py:288-290 | one more id adds it to `all_ids`, and to `non_unique_ids` when an id equal to it for Python was already seen |
| Validation.SeenIdsMeaning | cove/lib/common.py:290 | a value is in `all_ids` exactly when it equals, for Python, an id met so far |
| Validation.SharedByStep | cove/lib/common.py:288-290 | two items share an id after one more item exactly when two shared it before, or the new id equals, for Python, an earlier one |
| Validation.RepeatedIdsMeaning | cove/lib/common.py:288-289 | a value is in `non_unique_ids` exactly when two different items have ids equal to it for Python (so `1` and `True` repeat) |
| Validation.RepeatedIdsFrom | cove/lib/common.py:288-289 | each element of `non_unique_ids` is one of the ids met |
| Validation.NoRepeatsIffDistinct | cove/lib/common.py:298 | nothing is reported exactly when no two ids are equal for Python |
| Validation.RepeatsNotDistinct | cove/lib/common.py:288-289 | a non-empty `non_unique_ids` comes from two items whose ids are equal for Python |
| Validation.SharedIdRepeats | cove/lib/common.py:288-289 | two items with ids equal for Python make `non_unique_ids` non-empty |
| Validation.ScanIds | cove/lib/common.py:281-296 | the loop succeeds exactly when every item has a usable id, and then returns the repeated ids |
| Validation.TakeThree | cove/lib/common.py:300 | up to three different repeated ids, and all of them when there are fewer than three |
| Validation.UniqueIds | cove/lib/common.py:277-300 | no error unless `ui` is truthy and the instance is an array; the standard `uniqueItems` errors if an item has no usable id; otherwise one message naming up to three repeated ids exactly when two ids are equal for Python |
| Validation.RequiredDraft4 | cove/lib/common.py:303-308 | an error for exactly the required names missing from an object, none for a non-object |
| Validation.RequiredDraft4Append | cove/lib/common.py:306-308 | the errors follow the order of `required` |
| Validation.ProcessSkipsCodelistEnums | cove/lib/common.py:438-440 | exactly the enum errors of codelist fields are dropped |
| Validation.ProcessValue | cove/lib/common.py:411-422 | a reported error's dict has the concrete path, and the failing value when it is not a dict or list |
| Validation.ProcessFormatType | cove/lib/common.py:401-409 | a format or type error is grouped under its format or type, first of a list, with the friendly message when there is one |
| Validation.ProcessRequired | cove/lib/common.py:424-437 | a `required` error names the missing field by its heading, or as `parent:field` below depth two, or as the bare field |
| Validation.ProcessEnum | cove/lib/common.py:438-444 | an enum error outside a codelist names the cell's header, or the last path segment; it raises when both are missing |
| Validation.GroupingIgnoresIndices | cove/lib/common.py:399-446 | errors at paths that differ only in their array indices are grouped under the same key |
| Validation.GroupingDistinct | cove/lib/common.py:447 | the report's keys are all different |
| Validation.GroupingKeys | cove/lib/common.py:446-447 | the report has a group for each key that occurs, and for no other |
| Validation.GroupingValues | cove/lib/common.py:447 | each group holds exactly the dicts reported under its key, in stream order |
| Validation.EntriesStep | cove/lib/common.py:438-447 | one more error adds its entry when it is reported, and nothing when it is skipped |
| Validation.GroupingSnoc | cove/lib/common.py:447 | one more entry is appended to its key's group |
| Validation.Append | cove/lib/common.py:447 | `validation_errors[k].append(v)` on the defaultdict |
| Validation.GroupErrors | cove/lib/common.py:396-448 | the loop fails exactly when some error raises, and otherwise returns the grouping of the reported entries |
| Validation.SchemaValidationErrors | cove/lib/common.py:396-448 | `None` exactly when some error raises; otherwise the grouping of `Process` over the stream |
| FieldCoverage.FieldsPresentExactly | cove/lib/common.py:316-329 | the generator yields exactly the fields of the dict members reachable through dicts and through the dicts in lists |
| FieldCoverage.FieldsPresentBelow | cove/lib/common.py:316-329 | every field yielded below a prefix extends `prefix + "/"` |
| FieldCoverage.MemberFieldYieldedOnce | cove/lib/common.py:319-329 | a member's own field is yielded exactly once for that member |
| FieldCoverage.FieldsPresentHaveParent | cove/lib/common.py:366 | every yielded field splits into a parent and a member name at its last slash |
| FieldCoverage.FieldCounts | cove/lib/common.py:332-335 | the counter has exactly the yielded fields, each with the number of times it was yielded |
| FieldCoverage.SchemaFieldsExactly | cove/lib/common.py:338-354 | the schema generator yields exactly `/name` for each property, and `/name` followed by the fields of each object branch and each array branch's items; never the empty string |
| FieldCoverage.PropertiesFieldsExactly | cove/lib/common.py:339-354 | the properties loop yields exactly what some property declares |
| FieldCoverage.BranchesFieldsExactly | cove/lib/common.py:341-354 | the `oneOf` loop yields exactly what some branch declares |
| FieldCoverage.SchemaFieldSet | cove/lib/common.py:358-361 | the record-package fields for `record-package-schema.json`, the release-package fields otherwise; none is empty |
| FieldCoverage.CountsAdditionalFields | cove/lib/common.py:357-376 | each reported `(parent, name, count)` is a data field missing from the schema, whose parent is top level or in the schema, that the language filter does not drop, with its count; every such field is reported |
| FieldCoverage.ReportEntriesDistinct | cove/lib/common.py:376 | different fields give different report entries |
| Deprecation.DeprecatedOfExactly | cove/lib/common.py:469-480 | an entry is listed exactly when a visited property is deprecated, directly or through its `$ref` |
| Deprecation.CollectDeprecatedPaths | cove/lib/common.py:451-487 | the recursion appends to the accumulator the entries of the properties it visits, in visiting order |
| Deprecation.VisitProperty | cove/lib/common.py:463-485 | one loop iteration appends the property's own entry, then the entries below it |
| Deprecation.SchemaDeprecatedPaths | cove/lib/common.py:451-487 | the result holds exactly the deprecated properties the walk reaches, with their explanations |
| Deprecation.DeprecatedPathsExactly | cove/lib/common.py:451-487 | an entry is listed exactly when the walk reaches a property at that path that is deprecated with that explanation |
| GenericPaths.File | cove/lib/common.py:508-525 | filing one event adds exactly its key to the dict |
| GenericPaths.FileAllAppend | cove/lib/common.py:517-525 | filing events in two runs is filing them in one |
| GenericPaths.CollectGenericPaths | cove/lib/common.py:490-527 | the recursion leaves the accumulator with the events of the walk filed in order |
| GenericPaths.CollectMembers | cove/lib/common.py:508-525 | the loop over a dict's members files their events |
| GenericPaths.CollectItems | cove/lib/common.py:512-525 | the loop over a list's items files their events |
| GenericPaths.VisitValue | cove/lib/common.py:518-525 | one loop iteration walks a container and files a scalar |
| GenericPaths.FileAllKeys | cove/lib/common.py:508-525 | the dict has a key exactly for each event's generic path |
| GenericPaths.FileAllLeaves | cove/lib/common.py:521-525 | without clashes, a generic path with scalars maps to the dict of exactly those scalars |
| GenericPaths.ValueEventsSound | cove/lib/common.py:508-525 | every event of the walk is a scalar, an empty dict or an empty list found in the data at that path |
| GenericPaths.ValueEventsComplete | cove/lib/common.py:508-525 | the walk meets every scalar, empty dict and empty list in the data |
| GenericPaths.ScalarsNotUnderEmpties | cove/lib/common.py:508-515 | in data without repeated member names, no empty container sits at the generic path of a scalar |
| GenericPaths.EventsNoClash | cove/lib/common.py:508-515 | data without repeated member names never records an empty container over scalars |
| GenericPaths.GenericPathsKeys | cove/lib/common.py:490-527 | the result has a key for the generic path of each scalar and each empty container, and no other |
| GenericPaths.GenericPathsLeaves | cove/lib/common.py:521-525 | the entry of a generic path holding scalars maps exactly their concrete paths to their values |
| DeprecatedFields.PathLtTransitive | cove/lib/common.py:548 | Python's tuple order on paths is transitive |
| DeprecatedFields.PathLtTotal | cove/lib/common.py:548 | Python's tuple order on paths is total |
| DeprecatedFields.LeastExists | cove/lib/common.py:548 | a non-empty set of paths has exactly one least path |
| DeprecatedFields.SortedPaths | cove/lib/common.py:548 | `sorted(paths)` has each path once, in ascending order |
| DeprecatedFields.SlashedAll | cove/lib/common.py:549 | each path becomes the slash-joined path of the object holding the field |
| DeprecatedFields.InData | cove/lib/common.py:533 | exactly the deprecated paths whose generic path is a key of the data's dict are kept |
| DeprecatedFields.SortByName | cove/lib/common.py:539 | the sort by field name is a permutation |
| DeprecatedFields.InsertByNameSorted | cove/lib/common.py:539 | inserting into a list sorted by field name keeps it sorted |
| DeprecatedFields.SortByNameSorted | cove/lib/common.py:539 | the result is sorted by field name |
| DeprecatedFields.SortLastNamed | cove/lib/common.py:539 | the sort is stable: for each field name, the same entry comes last |
| DeprecatedFields.GroupedShape | cove/lib/common.py:538-543 | assigning in sorted order gives strictly increasing keys |
| DeprecatedFields.GroupedValues | cove/lib/common.py:538-543 | each key holds the entry of the last deprecated path with that field name |
| DeprecatedFields.GroupedKeys | cove/lib/common.py:538-543 | every field name is a key |
| DeprecatedFields.EntryPathsInData | cove/lib/common.py:541 | the concrete paths recorded for a deprecated field are exactly those of the scalars in the data at its generic path |
| DeprecatedFields.GroupFields | cove/lib/common.py:538-543 | `None` exactly when some deprecated path maps to an empty list, which has no `.keys()`; otherwise the grouped dict |
| DeprecatedFields.ReportAll | cove/lib/common.py:546-550 | each field keeps its name and gets its sorted, slash-joined paths and its explanation |
| DeprecatedFields.DeprecatedFieldsOf | cove/lib/common.py:530-552 | `None` exactly when a hit maps to an empty list; otherwise the keys are strictly increasing, are exactly the field names of the hits, and each holds the report of the last hit with that name |
| Codelists.AddIsCodelist | cove/lib/common.py:555-574 | every codelist property the walk reaches is reached in the result and marked, on its `items` when its type mentions "array" and on itself otherwise; every mark site, through properties and through definitions that have properties, is marked; a node is marked only at a mark site or where the schema already had a mark; a mark the schema already had on a path that passes through no `isCodelist` member is kept; and with every `isCodelist` member dropped at every depth, the result equals the schema |
| Codelists.AnnotateDefs | cove/lib/common.py:572-574 | each definition keeps its name and place, and is annotated exactly when it has `properties` |
| Codelists.NodeAtMark | cove/lib/common.py:562-565 | setting `isCodelist` changes no node below another member, and no marked node |
| Codelists.NodeAtReplace | cove/lib/common.py:562 | replacing `items` changes no node below another member |
| Codelists.GetAnnotateMembers | cove/lib/common.py:560-574 | the annotated `properties` and `definitions` are the annotated members when there are any, and are unchanged otherwise |
| Codelists.GetAnnotateProps | cove/lib/common.py:560-570 | the property found under a name in the annotated properties is the annotated property found there |
| Codelists.GetAnnotateDefs | cove/lib/common.py:572-574 | the definition found under a name in the annotated definitions is the annotated definition found there |
| Codelists.NodeAtAnnotatedProperty | cove/lib/common.py:560-570 | below an annotated node's property is the node below that annotated property |
| Codelists.NodeAtAnnotatedDefinition | cove/lib/common.py:572-574 | below an annotated node's definition is the node below that annotated definition |
| Codelists.AnnotateMarksSites | cove/lib/common.py:560-574 | every mark site of a well-shaped schema, below a property or a definition with properties, is marked after annotation |
| Codelists.PropertyMarksSites | cove/lib/common.py:561-570 | every mark site of one property is marked: the property or its items for its codelist, and the sites of the object or array items it descends into |
| Codelists.PropertyMarksOwnSite | cove/lib/common.py:561-565 | a property with a codelist is marked on itself, or on its `items` when its type mentions "array" |
| Codelists.PropertyMarksSitesOnItems | cove/lib/common.py:567-570 | the mark sites below the items of an "array" property with properties are marked |
| Codelists.AnnotateMarksOnly | cove/lib/common.py:560-574 | a marked node in the annotated tree is a mark site or was already marked |
| Codelists.PropertyMarksOnly | cove/lib/common.py:561-570 | below one annotated property, a marked node is one of its mark sites or was already marked |
| Codelists.PropertyMarksOnlyOnItems | cove/lib/common.py:561-570 | the same for a property whose `items` carry its codelist mark |
| Codelists.DescendMarksOnly | cove/lib/common.py:567-570 | below a descended property, a marked node is a mark site of the object or of the array's items, or was already marked |
| Codelists.PropertiesNodeMarked | cove/lib/common.py:560 | the annotated `properties` object itself is marked exactly when it already was |
| Codelists.DefinitionsNodeMarked | cove/lib/common.py:572 | the annotated `definitions` object itself is marked exactly when it already was |
| Codelists.AnnotateKeepsMarks | cove/lib/common.py:555-574 | a mark the schema already had, on a path that passes through no `isCodelist` member, is still there after annotation |
| Codelists.PropertyKeepsMarks | cove/lib/common.py:561-570 | annotating one property keeps every mark it already had on a path free of `isCodelist` members, including its own mark |
| Codelists.DescendKeepsMarks | cove/lib/common.py:567-570 | descending into a property's `properties` or `items` keeps every mark it already had on a path free of `isCodelist` members |
| Codelists.UnmarkedAnnotate | cove/lib/common.py:555-574 | annotation changes nothing but `isCodelist` members: with them dropped at every depth, the annotated schema equals the schema |
| Codelists.UnmarkedAnnotateProperty | cove/lib/common.py:561-570 | annotating one property changes nothing but `isCodelist` members |
| Codelists.UnmarkedDescend | cove/lib/common.py:567-570 | descending into a property changes nothing but `isCodelist` members |
| Codelists.UnmarkedMark | cove/lib/common.py:565 | setting `isCodelist` to true changes nothing but `isCodelist` members |
| Codelists.UnmarkedReplace | cove/lib/common.py:562-570 | replacing a member other than `isCodelist` by a value that differs from it only in `isCodelist` members changes nothing but `isCodelist` members |
| Codelists.UnmarkedMembersAgree | cove/lib/common.py:560-574 | two member lists that agree on every member but `isCodelist` look the same once `isCodelist` members are dropped |
| SchemaTree.Members | cove/lib/common.py:560-572 | a non-empty result is the dict held under the member named |
| Codelists.AnnotateMarksReached | cove/lib/common.py:560-570 | the same, for any node |
| Codelists.AnnotatedPropertyMarked | cove/lib/common.py:561-565 | an annotated property with a codelist is marked |
| Codelists.GetAnnotate | cove/lib/common.py:560-574 | annotating changes only `properties` and `definitions` |
| Codelists.AnnotateMark | cove/lib/common.py:561-574 | marking and annotating commute |
| Codelists.AnnotateInSourceOrder | cove/lib/common.py:561-570 | marking first and descending second gives the annotated property |
| Codelists.RecordAllKeys | cove/lib/common.py:595-596 | recording keeps existing paths and adds exactly the visited paths that have a codelist |
| Codelists.RecordAllFirst | cove/lib/common.py:595-596 | a new path gets the codelist of its first visit |
| Codelists.CollectCodelistPaths | cove/lib/common.py:577-603 | the recursion records the codelists of the properties it visits, in visiting order |
| Codelists.VisitCodelistProperty | cove/lib/common.py:589-601 | one loop iteration records the property, then the properties below it |
| Codelists.SchemaCodelistPaths | cove/lib/common.py:577-603 | the result has exactly the paths the walk reaches with a codelist, each with its file and openness |
| Codelists.CodelistPathsExactly | cove/lib/common.py:577-603 | a path is recorded exactly when the walk reaches a codelist property there, with that property's reference |
| Codelists.CodelistPathsSound | cove/lib/common.py:595-596 | every recorded path reaches a codelist property with the recorded reference |
| Codelists.CodelistPathsComplete | cove/lib/common.py:595-596 | every path reaching a codelist property is recorded |
| Codelists.DataPathsSound | cove/lib/common.py:627-640 | every yielded pair is a truthy non-dict value found in the data at its path, which ends in a member name |
| Codelists.DataPathsMeaning | cove/lib/common.py:627-640 | the generator raises exactly when it is called on a value that is not a dict; otherwise every path it yields extends the starting path, and it yields exactly the values it reaches through truthy dicts and lists whose first item is a dict |
| Codelists.DataPathsComplete | cove/lib/common.py:628-640 | every truthy value the generator reaches and does not walk into is yielded, with its path |
| Codelists.DataPathsYields | cove/lib/common.py:628-640 | every yielded pair is reached, below the starting path |
| Codelists.DataPathsNoneWhen | cove/lib/common.py:628 | calling the generator on a non-dict value raises |
| Codelists.DataPathsNoneWhere | cove/lib/common.py:628 | when the generator raises, it was called on a value that is not a dict |
| Codelists.DataMembersHas | cove/lib/common.py:628 | the loop over a dict's members yields everything each member yields |
| Codelists.DataItemsHas | cove/lib/common.py:632-633 | the loop over a list's items yields everything each item yields |
| Codelists.Concat | cove/lib/common.py:628-640 | a `yield from` sequence fails exactly when one of its parts does, and yields exactly the values of both parts |
| Codelists.AddMissing | cove/lib/common.py:666-680 | `None` exactly when a value is unhashable; otherwise the report of `Added`, each missing value joining the path's Python set |
| Codelists.AddedAt | cove/lib/common.py:666-680 | after checking values at a path, the path is reported exactly when it was or a value is missing from the codelist; its entry is the old one or the new one apart from its set; a value is in the set, for Python, exactly when it was or equals a missing value |
| Codelists.AddedOther | cove/lib/common.py:666-680 | checking values at one path leaves every other path's entry as it was |
| Codelists.AddedValid | cove/lib/common.py:670-680 | checking values keeps every entry's set a Python set |
| Codelists.AddedStep | cove/lib/common.py:666-680 | checking one more value adds it to the path's Python set exactly when it is missing from the codelist |
| Codelists.UnhashableStep | cove/lib/common.py:651-667 | one more yielded pair raises exactly when it is at a checked path and holds a list or dict value |
| Codelists.FlaggedStep | cove/lib/common.py:651-680 | the values flagged after one more yield are the earlier ones plus its values missing from the codelist of its checked path |
| Codelists.FlaggedSomeStep | cove/lib/common.py:651-680 | a path has a flagged value after one more yield exactly when it had one before, or the yield is at that checked path and has a value missing from its codelist |
| Codelists.ReportStepKeys | cove/lib/common.py:666-678 | one more yield adds its own path to the report exactly when it is checked and has a value missing from its codelist, and no other path |
| Codelists.ReportStepEntry | cove/lib/common.py:669-678 | one more yield keeps every entry apart from its set, and starts a new entry from the path's codelist and URL |
| Codelists.ReportStepValues | cove/lib/common.py:679 | a value in a path's set after one more yield was there before or is a value of that yield missing from the codelist |
| Codelists.ReportValid | cove/lib/common.py:670-680 | every entry's set of the report is a Python set |
| Codelists.ReportedKeys | cove/lib/common.py:651-680 | a path is reported exactly when a value missing from its codelist was found there |
| Codelists.ReportedValues | cove/lib/common.py:651-680 | a value is in a reported path's set, for Python, exactly when it equals a value found there that its codelist lacks |
| Codelists.ReportedEntry | cove/lib/common.py:669-678 | a reported path is checked, and its entry is the one it started with, apart from the values |
| Codelists.AdditionalMeaning | cove/lib/common.py:643-683 | each reported path has its parent, field name, codelist file, URL and openness, and its set is a Python set of exactly the missing values found there |
| Codelists.AdditionalCodelistValues | cove/lib/common.py:643-683 | `{}` for an empty codelist URL; otherwise `None` exactly when the data walk or an unhashable value raises, and else the report over the yielded values |
| JsonValues.PyKeyMeaning | cove/lib/common.py:288 | two values have the same Python key exactly when they are equal, or one is `True` and the other `1`, or one is `False` and the other `0` |
| JsonValues.PyAddMeaning | cove/lib/common.py:290 | `s.add(x)` adds the key of `x`, keeps every element already there, holds `x` itself when its key is new, and keeps each key mapped to an element with that key |
| JsonValues.SetKey | cove/lib/common.py:168 | `d[k] = v`: an existing key keeps its place, a new key goes last |
| JsonValues.LookupSetKey | cove/lib/common.py:197 | after `d[k] = v`, `k` gives `v` and every other key what it gave before |
| JsonValues.SetKeyTwice | cove/lib/common.py:540 | assigning a key twice keeps only the second value |
| JsonValues.KeyIndexFirst | cove/lib/common.py:167 | the member found is the first with that name, and no member is found exactly when none has it |
| JsonValues.NamesAppend | cove/lib/common.py:399 | the member names of a concatenated path concatenate |
| JsonValues.KeyPathInjective | cove/lib/common.py:533 | different name tuples are different generic paths |
| Text.LastSlash | cove/lib/common.py:189 | `rfind('/')`: the position of the last slash, or `None` exactly when there is none |
| Text.LastSegment | cove/lib/common.py:47 | `split('/')[-1]`: the slash-free tail after the last slash, or the whole text |
| Text.BeforeLastSegment | cove/lib/common.py:366 | `'/'.join(split('/')[:-1])`: the text before the last slash, or `""` |
| Text.StrLtTransitive | cove/lib/common.py:538 | Python's string order is transitive |
| Text.StrLtTotal | cove/lib/common.py:538 | Python's string order is total |

## Left out

- Network and file I/O are not modelled. This covers `requests.get`, `open`, `json.load`, jsonref's loaders, `CustomJsonrefLoader.get_remote_json`, `CustomRefResolver.resolve_remote`'s store and `_load_codelists`. The loaded codelists and the two fetches in `apply_extensions` (patch and descriptor) are parameters.
- `json_merge_patch.merge` of each patch into the schema is not modelled. `ApplyExtensions` records the outcomes only, so the merged schema is not part of the model.
- The JSON Schema validator itself (`Draft4Validator.iter_errors`, `FormatChecker`, `uniqueItemsValidator`) is not modelled. Its error stream and the standard `uniqueItems` messages are inputs.
- flattentool's `get_property_type_set` is `SchemaTree.TypeSet`, and `urljoin` is `SchemaSelection.UrlJoin`. Both are simplified: joining is the directory merge of RFC 3986 section 5.2.3 only. Scheme, authority, `..` and query handling are not modelled.
- `LANGUAGE_RE` is a predicate parameter of `CountsAdditionalFields`; the regular expression is not modelled.
- `functools.lru_cache`, Django settings (they are the `Config` value), `print`, `SchemaMixin`'s schema loading and caching, `Schema360`, `create_extended_release_schema_file` and `deref_schema` are not modelled.
- Floating-point JSON numbers are not modelled: numbers are integers.
- Python's raising on a malformed schema is replaced by the preconditions `SchemaShape` and `ReferencesShape`. A malformed schema means, for example, a `properties` that is not a dict, an array type without `items`, or a `deprecated` object without its members. `SchemaShape` is one shape shared by all the schema walkers, so for each walker it also excludes some schemas that this walker reads without raising. The members below name some of those schemas, among them the following three kinds, which the precondition of every walker excludes. (a) A `type` that is neither a string nor a list of strings: lines 482/484 and 598/600 only compare it with `==`, line 346 puts it in a set, and line 562 raises on it only when the node has a `codelist`. (b) A malformed member of `definitions`, which lines 338-354, 451-487 and 577-603 never read, or a malformed element of `oneOf`, which lines 451-487, 555-574 and 577-603 never read. (c) A malformed `properties` or `items` on a node that no walk enters, such as a property typed "string" whose `properties` is 5.
- FieldCoverage.CountsAdditionalFields: requires `SchemaShape` of both package schemas, so it excludes schemas whose `codelist` is not a string or whose `deprecated` lacks its members, although `schema_dict_fields_generator` never reads either. It also excludes a non-dict `items`, which `'properties' in ...` at line 339 reads without raising when it is a string or a list.
- Codelists.AddIsCodelist: requires `SchemaShape`, so it excludes a non-string `codelist` and a malformed `deprecated`, neither of which lines 555-574 read. It also excludes a type that mentions "array" (such as `["array", "null"]`) without `items`, on which Python raises only when the property also has a codelist (line 563) or the type is exactly "array" (line 569).
- Codelists.CollectCodelistPaths: requires `SchemaShape`, so it excludes a malformed `deprecated`, which lines 577-603 never read, and a non-string `codelist`, which Python records as it is. It also excludes a type that mentions "array" without being exactly "array" (such as `["array", "null"]`) and has no `items`: line 600 reads `items` only for the exact type. The same holds for Codelists.SchemaCodelistPaths and Codelists.AdditionalCodelistValues.
- Deprecation.SchemaDeprecatedPaths: requires `SchemaShape`, so it excludes a non-string `codelist`, which lines 451-487 never read, and a type that mentions "array" without being exactly "array" and has no `items` (line 484 reads `items` only for the exact type).
- DeprecatedFields.DeprecatedFieldsOf: requires the data to be a dict or a list. Python also accepts a top-level string: `enumerate` files its characters under the empty generic path, which no deprecated path matches, so the report is empty. Any other top-level value raises TypeError.
- GenericPaths.CollectGenericPaths: requires the data to be a dict or a list, for the same reason as DeprecatedFields.DeprecatedFieldsOf.
- Codelists.AdditionalCodelistValues: the report is a `map` from path to entry. The insertion order of Python's report dict, which follows the order of the data walk, is not modelled.
- Text.AsciiLower: lowers only `A`-`Z`. Python's `str.lower()` at line 206 also lowers non-ASCII letters.
- SchemaSelection.SchemaOcds.constructor: requires `!InitRaises`. `__init__` raises on truthy data that is not a dict, on unusable `extensions`, and on a dict or list version; the model excludes these inputs instead of modelling the exception.
- Validation.UniqueIds: the message names some three repeated ids, stated by `FirstThree`. Python's set iteration order, which picks which three, is not modelled.
- DeprecatedFields.SegLt: an integer and a string compare as integer-first, where Python raises TypeError. The paths sorted share their generic path, so this case does not arise.
- Codelists.AddIsCodelist: it is modelled on values, as the annotated tree it returns. At line 74 Python updates in place the dict that `json.load` returned at line 72, before any `$ref` in it is resolved, and line 75 then stores that same dict; the in-place update is not modelled.
- The order of a Python `set` in reports is not modelled: `values` of a codelist entry is a `set`.
- Validation.SchemaValidationErrors: the `json.dumps` text of the grouping key is a `GroupKey` value, and only key equality matters.
