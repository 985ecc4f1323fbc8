# storage-api in Dafny

A model of the core of the CERN storage API (cerndb/storage-api). The service is a REST
front end over storage back-ends (NetApp filers, a Ceph placeholder and an in-memory
dummy back-end). It exposes volumes, snapshots, locks and export policies. The model
covers these parts:

- **The in-memory back-end** `DummyStorage` (`dummy_storage.dfy`, with its rule lists in
  `rule_lists.dfy`). It is a class with the four dictionaries of the original (`vols`,
  `locksStore`, `rulesStore`, `snapshotsStore`). The methods update these in place.
  Volume records are heap objects, so the record sharing that `clone_volume` sets up is
  kept. The code is modelled as written. Where it departs from the documented back-end
  contract, the contract is not proved, and the departure is proved as a small scenario.
- **The NetApp export-rule logic** `PolicyRulesNetApp` (`policy_rules.dfy`). It covers
  the paged rule listing, rule lookup, idempotent rule creation, and rule deletion
  followed by renumbering. The controller's replies are parameters, and the changing
  requests sent to the controller are recorded in order.
- **NetApp provisioning** `NetAppprov` (`provisioning.dfy`): name validation, aggregate
  selection, the create-if-absent flow with its export policy and options, and the
  unmount/offline/destroy and unmount/restrict sequences.
- **Server-path parsing** of `BasicStorage` (`server_path.dfy`).
- **The REST routes' decisions** (`dispatch.dfy`). These are the subsystem table, the
  back-end fallback, which exceptions become which HTTP statuses, the POST and PATCH
  branches, and the lock rendering.
- **Configuration parsing** (`conf.dfy`): `conf_to_dict`, the 🦄/🌈 back-end list, and
  the OAuth and role-group settings written into the application configuration.
- **The dictionary helpers** `dict_without`, `filter_none`, `merge_two_dicts` and
  `pairwise` (`dict_utils.dfy`). The three identical copies of `dict_without` share one
  definition.

Python exceptions are values of `Common.Exception`, and an operation's outcome is a
`Result` (a value or the exception raised). Dictionaries are maps. A dictionary whose key
order decides an answer is a sequence of pairs. `None` is `Option.None`.

## Model

| member | source | states |
|---|---|---|
| DictUtils.DictWithout | storage_api/utils.py:7-15 | succeeds exactly when the listed keys are distinct and all present; the result lacks exactly the listed keys and keeps every other value; a failure is a `KeyError` naming a listed key; the argument is a value and is never changed; the copies at utils.py:8-16 and apis/common/__init__.py:21-29 are identical and share this definition |
| DictUtils.DictWithoutReportsFirstBadKey | storage_api/utils.py:12-13 | the key reported is the first listed key that is missing or repeated |
| DictUtils.FilterNone | storage_api/utils.py:18-23 | no value of the result is `None` |
| DictUtils.FilterNoneIsDictWithout | storage_api/utils.py:23 | `dict_without` of the `None`-valued keys, in any order, succeeds and yields exactly the non-`None` entries with their values |
| DictUtils.MergeTwoDicts | storage_api/utils.py:41-45 | keys of both; `y`'s value wins on a shared key, `x`'s value is kept elsewhere |
| DictUtils.Pairwise | storage_api/utils.py:48-49 | `|s|/2` pairs, the i-th being `(s[2i], s[2i+1])`; an odd last element is dropped |
| DictUtils.DictOfLastWins | storage_api/conf.py:24 | `dict(pairs)` holds a key exactly when some pair carries it, with the value of the last such pair |
| DictUtils.ListValues | extensions/storage.py:397-398 | one value per key of the map, each the value stored at a distinct key |
| RuleLists.Dedup | extensions/storage.py:477 | `list(OrderedSet(rules))` has no repetition and the same elements as `rules` |
| RuleLists.DedupKeepsFirstOccurrenceOrder | extensions/storage.py:477 | de-duplicated rules keep the order of their first occurrences |
| RuleLists.DedupOfDistinct | extensions/storage.py:477 | a list without repetitions is stored unchanged |
| RuleLists.DedupIdempotent | extensions/storage.py:477 | de-duplicating twice equals de-duplicating once |
| RuleLists.WithRule | extensions/storage.py:526-527 | the rule is present afterwards; the existing rules are kept in place as a prefix, and the rule is appended at the end exactly when it was absent; its count is unchanged if present, else 1; a list without repetitions stays so |
| RuleLists.WithRuleRepeated | extensions/storage.py:524-527 | ensuring a rule present n >= 1 times equals doing it once, and the rule then occurs exactly once |
| RuleLists.WithoutRule | extensions/storage.py:532-533 | the rule is absent afterwards and nothing new appears |
| RuleLists.WithoutRuleCounts | extensions/storage.py:532-533 | exactly the occurrences of the rule go; every other rule keeps its count |
| RuleLists.WithoutRuleDistributes | extensions/storage.py:532-533 | filtering works piece by piece, so survivors keep their order |
| RuleLists.WithoutRuleDistinct | extensions/storage.py:532-533 | filtering keeps a list free of repetitions |
| RuleLists.WithoutRuleAbsent | extensions/storage.py:532-533 | removing an unlisted rule changes nothing |
| RuleLists.WithoutRuleIdempotent | extensions/storage.py:532-533 | removing twice equals removing once |
| DummyBackend.VolumeNotFound | extensions/storage.py:46-47 | the message is "No such volume: " followed by the name |
| DummyBackend.SnapshotNotFound | extensions/storage.py:386-388 | the message is "No such snapshot exists for volume '", the volume, "': '", the snapshot and a closing quote |
| DummyBackend.AnnotateKeyError | extensions/storage.py:74-78 | a `KeyError` becomes a `KeyError` carrying the annotation; values and other exceptions pass through |
| DummyBackend.NewVolumeRecord | extensions/storage.py:428-432 | the four default fields plus the caller's; caller fields override; defaults are name, 0, 0, "dummy-filer" |
| DummyBackend.DummyStorage.constructor | extensions/storage.py:390-394 | four empty stores, which satisfy the store invariant |
| DummyBackend.DummyStorage.CheckVolume | extensions/storage.py:369-375 | succeeds exactly when the volume exists, else "No such volume" |
| DummyBackend.DummyStorage.CheckSnapshot | extensions/storage.py:377-388 | the volume check, then a bare store lookup, then the snapshot check, each with its own `KeyError` |
| DummyBackend.DummyStorage.Volumes | extensions/storage.py:396-398 | lists every stored record once, by volume name |
| DummyBackend.DummyStorage.GetVolume | extensions/storage.py:400-404 | the stored record, or `KeyError("No such volume: <name>")` |
| DummyBackend.DummyStorage.RestrictVolume | extensions/storage.py:406-412 | an absent volume raises and changes nothing; otherwise the volume, its lock, policies and snapshots are removed and nothing else changes; the store invariant is kept |
| DummyBackend.DummyStorage.PatchVolume | extensions/storage.py:414-419 | the record gains exactly the supplied fields; records not shared with the volume are unchanged; an absent volume raises only for non-empty data |
| DummyBackend.DummyStorage.CreateVolume | extensions/storage.py:421-436 | an existing name raises `KeyError` and changes no store; otherwise a fresh record with defaults, empty policy and snapshot stores and no lock |
| DummyBackend.DummyStorage.Locks | extensions/storage.py:438-444 | the holder, `None` when free, "No such volume" when absent |
| DummyBackend.DummyStorage.CreateLock | extensions/storage.py:446-455 | another holder gives `ValueError` and keeps the lock; the same holder is a no-op; otherwise the host holds the lock |
| DummyBackend.DummyStorage.RemoveLock | extensions/storage.py:457-462 | releases only for the holder; another host keeps it; a free volume raises "No such volume" |
| DummyBackend.DummyStorage.Policies | extensions/storage.py:464-466 | the rule lists of the volume's policies; a volume without a policy store is reported missing |
| DummyBackend.DummyStorage.PolicyRules | extensions/storage.py:468-471 | the rule list of one policy, or the `KeyError` of the first failed lookup |
| DummyBackend.DummyStorage.GetPolicy | extensions/storage.py:468-471 | that lookup; a stored list has no repetitions |
| DummyBackend.DummyStorage.CreatePolicy | extensions/storage.py:473-477 | stores the de-duplicated rules under the name, overwriting a policy of the same name |
| DummyBackend.DummyStorage.RemovePolicy | extensions/storage.py:479-483 | drops exactly that policy, or raises the lookup's `KeyError` and changes nothing |
| DummyBackend.DummyStorage.CloneVolume | extensions/storage.py:485-496 | source checks come before the name check; the clone is the source's record object under a new name |
| DummyBackend.DummyStorage.CreateSnapshot | extensions/storage.py:498-502 | records `{name}` under the volume, overwriting; a volume without a store is reported missing |
| DummyBackend.DummyStorage.GetSnapshot | extensions/storage.py:504-507 | the stored snapshot, or the check's `KeyError` |
| DummyBackend.DummyStorage.DeleteSnapshot | extensions/storage.py:509-512 | after the checks, pops the snapshot name from the outer store, keyed by volume name |
| DummyBackend.DummyStorage.GetSnapshots | extensions/storage.py:514-517 | after the volume check, the snapshot stores of every volume |
| DummyBackend.DummyStorage.RollbackVolume | extensions/storage.py:519-522 | succeeds exactly when the volume and snapshot exist; changes nothing |
| DummyBackend.DummyStorage.EnsurePolicyRulePresent | extensions/storage.py:524-527 | the rule then occurs exactly once in the policy; other policies unchanged |
| DummyBackend.DummyStorage.EnsurePolicyRuleAbsent | extensions/storage.py:529-533 | the rule then is absent; the others keep their order |
| DummyBackend.PatchingACloneChangesItsSource | extensions/storage.py:496 | patching a clone changes its source volume too |
| DummyBackend.CloneHasNoStores | extensions/storage.py:496 | a clone has no snapshot or policy store of its own |
| DummyBackend.DeletedSnapshotSurvives | extensions/storage.py:512 | a deleted snapshot is still there, and the deletion raises `KeyError` |
| DummyBackend.ReleasingAFreeVolumeRaises | extensions/storage.py:461 | releasing a free volume raises "No such volume" |
| DummyBackend.PolicyRecreationOverwrites | extensions/storage.py:477 | creating a policy under an existing name replaces its rules |
| ServerPath.LeadingNonDigits | storage/vendors/BasicStorage.py:42 | the longest digit-free prefix: every character before it is a non-digit, and the next is a digit |
| ServerPath.ControllerMatches | storage/vendors/BasicStorage.py:42 | a match of `^(\D{6,})\d{1,}.*$` captures exactly the longest digit-free prefix |
| ServerPath.LayoutMatches | storage/vendors/BasicStorage.py:47 | a matching path is non-empty, colon-free and a single line |
| ServerPath.ClusterOf | storage/vendors/BasicStorage.py:42-44 | the cluster the regex captures when it matches, the only possible capture; `None` exactly when nothing matches |
| ServerPath.ConfiguredType | storage/vendors/BasicStorage.py:48-49 | missing cluster or "type" is a `KeyError`; an empty type leaves the type unset |
| ServerPath.Parse | storage/vendors/BasicStorage.py:38-50 | not exactly one colon is an `AssertionError`; success gives controller and path joined by the colon, a matching cluster, a valid path and the configured type |
| ServerPath.ParseOfParts | storage/vendors/BasicStorage.py:38-50 | for a colon-free controller and path the outcome follows the two regexes and the configuration in order, and success gives the parts back |
| ServerPath.BasicStorage.New | storage/vendors/BasicStorage.py:19-57 | the object exists exactly when parsing succeeds, with the parsed fields, and `GetType` returns the configured type |
| NetAppRules.PutToMap | storage/vendors/PolicyRulesNetApp.py:189 | storing an entry updates the dictionary at that key only |
| NetAppRules.Put | storage/vendors/PolicyRulesNetApp.py:189 | a new key is appended with its value; an existing key keeps the key set |
| NetAppRules.PutDistinct | storage/vendors/PolicyRulesNetApp.py:189 | the listing's keys stay distinct |
| NetAppRules.PutEntries | storage/vendors/PolicyRulesNetApp.py:189 | a store adds the new entry or keeps old ones; no key is lost |
| NetAppRules.PutAllIsDictOf | storage/vendors/PolicyRulesNetApp.py:185-189 | storing a page's records one by one builds `dict` of all records so far |
| NetAppRules.PutAll | storage/vendors/PolicyRulesNetApp.py:185-189 | storing records keeps the keys distinct |
| NetAppRules.Listing | storage/vendors/PolicyRulesNetApp.py:146-193 | a listing built from distinct keys keeps them distinct |
| NetAppRules.ListingIsDictOfRecords | storage/vendors/PolicyRulesNetApp.py:146-193 | the listing fails exactly when a page read fails; otherwise it is `dict` of every record read, later pages overwriting |
| NetAppRules.FirstKeyWithValue | storage/vendors/PolicyRulesNetApp.py:126-135 | `None` exactly when no entry holds `ip`; otherwise the first index, in listing order, holding it |
| NetAppRules.RuleIndexMatches | storage/vendors/PolicyRulesNetApp.py:119-135 | the reported index maps to `ip` in the listing; `None` exactly when the listing failed or no rule holds `ip` |
| NetAppRules.Insert | storage/vendors/PolicyRulesNetApp.py:229 | inserting adds exactly the one element |
| NetAppRules.InsertSorted | storage/vendors/PolicyRulesNetApp.py:229 | inserting into a sorted list keeps it sorted |
| NetAppRules.SortStrings | storage/vendors/PolicyRulesNetApp.py:229 | `sorted`: a lexicographically sorted permutation |
| NetAppRules.WalkedKeys | storage/vendors/PolicyRulesNetApp.py:227-229 | the listing's keys, sorted; none for a failed or empty listing |
| NetAppRules.ReindexPlan | storage/vendors/PolicyRulesNetApp.py:230-236 | one move per key; the i-th sorted key goes to index i+1, and the skip test never fires |
| NetAppRules.RenumberingIsLexicographic | storage/vendors/PolicyRulesNetApp.py:229-236 | indices "2", "10", "1" are renumbered by their text: "1"→1, "10"→2, "2"→3 |
| NetAppRules.SortExample | storage/vendors/PolicyRulesNetApp.py:229 | `sorted(["2","10","1"]) == ["1","10","2"]` |
| NetAppRules.FirstFailure | storage/vendors/PolicyRulesNetApp.py:238-242 | the first refused reply among the first n; all earlier ones succeeded |
| NetAppRules.FirstFailureAt | storage/vendors/PolicyRulesNetApp.py:238-242 | a failure after only successes is the first failure |
| NetAppRules.FirstFailureNone | storage/vendors/PolicyRulesNetApp.py:238-242 | with no failures among the first n, the first failure is n |
| NetAppRules.MovesSent | storage/vendors/PolicyRulesNetApp.py:230-242 | the moves sent are a prefix of the plan, through the first refused one, or all of them |
| NetAppRules.PolicyRulesNetApp.constructor | storage/vendors/PolicyRulesNetApp.py:22-30 | a handle on the cluster with no connection and nothing sent |
| NetAppRules.PolicyRulesNetApp.NewVolume | storage/vendors/PolicyRulesNetApp.py:32-36 | the handle exists exactly when the server path parses, with only the vserver known |
| NetAppRules.PolicyRulesNetApp.PolicyCreate | storage/vendors/PolicyRulesNetApp.py:45-68 | proceeds only with no connection and a vserver, otherwise raises and sends nothing; a refused create raises |
| NetAppRules.PolicyRulesNetApp.GetRuleAll | storage/vendors/PolicyRulesNetApp.py:146-193 | the paging loop returns `Listing` of the pages; no vserver is a `KeyError` |
| NetAppRules.PolicyRulesNetApp.GetRuleAllREST | storage/vendors/PolicyRulesNetApp.py:137-144 | raises unless the volume names a policy; otherwise that policy's listing |
| NetAppRules.PolicyRulesNetApp.GetRule | storage/vendors/PolicyRulesNetApp.py:119-135 | the first index holding `ip`, or `None` |
| NetAppRules.PolicyRulesNetApp.CreateRule | storage/vendors/PolicyRulesNetApp.py:79-117 | a present rule gives 0 and sends nothing; otherwise one create at index "1", `None` if refused |
| NetAppRules.PolicyRulesNetApp.CreateRuleREST | storage/vendors/PolicyRulesNetApp.py:70-77 | no policy is `StorageException`, no vserver a `KeyError`, both sending nothing; otherwise `CreateRule` on the named policy: a present rule gives 0 and sends nothing, else one create at index "1" answering `None` if refused and 0 if not |
| NetAppRules.PolicyRulesNetApp.DeleteRule | storage/vendors/PolicyRulesNetApp.py:203-248 | an absent rule gives 0 and sends nothing; otherwise destroy, then the re-index moves through the first refused one |
| NetAppRules.PolicyRulesNetApp.Reindex | storage/vendors/PolicyRulesNetApp.py:229-242 | sends `MovesSent` of the plan; reports success exactly when no move is refused |
| NetAppRules.PolicyRulesNetApp.DeleteRuleREST | storage/vendors/PolicyRulesNetApp.py:195-201 | no policy is `StorageException`, no vserver a `KeyError`, both sending nothing; otherwise `DeleteRule` on the named policy: an absent rule gives 0 and sends nothing; a refused destroy is `None` after the one request; otherwise the moves sent through the first refused one, and 0 exactly when none is refused |
| NetAppProvisioning.VolumeName | storage/vendors/NetAppprov.py:37-38 | the caller's name with each character lower-cased, accepted exactly when it matches `^[\-_\w]+$`; no upper-case letter remains |
| NetAppProvisioning.LowerIdempotent | storage/vendors/NetAppprov.py:37 | lower-casing twice equals once |
| NetAppProvisioning.StoredNameRevalidates | storage/vendors/NetAppprov.py:37-38 | a stored name is accepted again, unchanged |
| NetAppProvisioning.ProvisioningPath | storage/vendors/NetAppprov.py:33 | the built server path has exactly one colon when its parts have none |
| NetAppProvisioning.CountAppend | storage/vendors/NetAppprov.py:33 | colons of a concatenation add up |
| NetAppProvisioning.ProvisioningCluster | storage/vendors/NetAppprov.py:33-34 | a digit-free cluster name of six or more characters is the cluster its server path names |
| NetAppProvisioning.Sized | storage/vendors/NetAppprov.py:139-144 | one entry per record, keyed `node:name`; a record with a size has it; one without has the previous record's size, or the size bound before the loop for the first |
| NetAppProvisioning.NodeSizes | storage/vendors/NetAppprov.py:139-144 | raises `UnboundLocalError` exactly when the first record has no space attributes and no earlier size is bound; otherwise the dictionary is the records stored one by one, each under `node:name` with its own size or the last one read; names once read stay |
| NetAppProvisioning.FreeSizes | storage/vendors/NetAppprov.py:101-149 | a failed query or zero records raise `StorageException`; otherwise it raises exactly when the first record has no size, and the result is `dict` of the records keyed `node:name` with the last size read |
| NetAppProvisioning.BestIndex | storage/vendors/NetAppprov.py:95-99 | the chosen candidate's size is the largest (as strings), and every earlier one is strictly smaller, as the stable reverse sort gives |
| NetAppProvisioning.AddCandidates | storage/vendors/NetAppprov.py:85-88 | adds at most one candidate per configured aggregate and removes none |
| NetAppProvisioning.Candidates | storage/vendors/NetAppprov.py:80-88 | succeeds only when every node lists the aggregate type; candidates are never lost |
| NetAppProvisioning.ChooseAggregate | storage/vendors/NetAppprov.py:76-99 | a missing business, vserver or `nodes` entry is a `KeyError`; `None` exactly when the node list is empty; a failed node query is passed on; no candidate at all is the `IndexError` of `sorted_candidate[0]` |
| NetAppProvisioning.AddCandidatesSound | storage/vendors/NetAppprov.py:85-88 | every candidate added is configured for the type and reported with that size |
| NetAppProvisioning.CandidatesSound | storage/vendors/NetAppprov.py:80-88 | the same over all nodes |
| NetAppProvisioning.AddCandidatesKeys | storage/vendors/NetAppprov.py:85-88 | candidates only grow, and each reported configured aggregate is added |
| NetAppProvisioning.CandidatesComplete | storage/vendors/NetAppprov.py:80-88 | every configured and reported `node:aggr` becomes a candidate |
| NetAppProvisioning.AggregateSelection | storage/vendors/NetAppprov.py:76-99 | the chosen aggregate has a largest free size among exactly the configured and reported `node:aggr` pairs, earlier ones being strictly smaller |
| NetAppProvisioning.GbReadsBack | storage/vendors/NetAppprov.py:244-247 | `str(n)+'g'` is digits then 'g' and reads back as n |
| NetAppProvisioning.SnapshotReserve | storage/vendors/NetAppprov.py:177-180 | "20" exactly when snapshots are wanted, "0" otherwise |
| NetAppProvisioning.AutosizePairs | storage/vendors/NetAppprov.py:242-248 | the arguments pair up as volume, increment (only when not 0), maximum, enabled |
| NetAppProvisioning.AutosizeOptions | storage/vendors/NetAppprov.py:242-248 | the options are volume, maximum-size in GB and is-enabled "true", and increment-size in GB exactly when the increment is not 0 |
| NetAppProvisioning.Wrap | storage/vendors/NetAppprov.py:187 | requests through the policy handle keep their order |
| NetAppProvisioning.NetAppprov.constructor | storage/vendors/NetAppprov.py:39-60 | stores the arguments; nothing is connected or sent |
| NetAppProvisioning.NetAppprov.New | storage/vendors/NetAppprov.py:25-60 | parse the server path, then validate the name; `business` defaults to the cluster name |
| NetAppProvisioning.NetAppprov.AggregateFreeSize | storage/vendors/NetAppprov.py:101-149 | the record loop computes `FreeSizes` |
| NetAppProvisioning.NetAppprov.FindAggregate | storage/vendors/NetAppprov.py:76-99 | the node loop and the sort compute `ChooseAggregate` |
| NetAppProvisioning.NetAppprov.GatherCandidates | storage/vendors/NetAppprov.py:81-90 | the loop over the configured nodes computes `Candidates`: a node without the type is a `KeyError`, a failed size query is passed on, and every fitting aggregate is gathered |
| NetAppProvisioning.NetAppprov.AddConfigured | storage/vendors/NetAppprov.py:85-88 | the inner loop computes `AddCandidates` |
| NetAppProvisioning.NetAppprov.PolicySteps | storage/vendors/NetAppprov.py:185-206 | nothing without a policy name; the policy is created exactly when named and its lookup fails; a named policy whose lookup and creation both fail raises `StorageException`, and a failure only follows those two; the client rule is requested at index "1" exactly when the policy is there, the address is truthy and no listed rule holds it; only export-policy requests are sent |
| NetAppProvisioning.NetAppprov.FollowUps | storage/vendors/NetAppprov.py:218-230 | autosize is set exactly when final size and increment are positive, with `AutosizeArgs`; snapshot autodeletion is set exactly when snapshots are wanted |
| NetAppProvisioning.NetAppprov.CreateRequest | storage/vendors/NetAppprov.py:171-201 | the volume-create request: name, aggregate, size in GB, junction path, reserve by snapshots, and the policy when named |
| NetAppProvisioning.NetAppprov.CreateIn | storage/vendors/NetAppprov.py:171-234 | the vserver is contacted; the result is 0 exactly when the policy steps pass and volume-create succeeds; a policy failure raises the policy error, a refused volume-create the volume error; the policy requests come first |
| NetAppProvisioning.NetAppprov.CreateInRequests | storage/vendors/NetAppprov.py:171-234 | with the aggregate known: the vserver is contacted; at most one volume-create, sent exactly when the export-policy steps do not raise and whenever the result is 0; autosize exactly when creation succeeded and both sizes are positive |
| NetAppProvisioning.NetAppprov.Creation | storage/vendors/NetAppprov.py:151-234 | an existing volume gives 0 and sends nothing; a failed aggregate search raises its exception; no aggregate, or one without ':', raises "No aggregate"; two or more ':' is the unpacking `ValueError`; one ':' creates in the part after it; nothing is sent unless the vserver is contacted |
| NetAppProvisioning.NetAppprov.SetSnapAutoDeletion | storage/vendors/NetAppprov.py:322-362 | sends one autodelete request; `None` if refused, else 0 |
| NetAppProvisioning.NetAppprov.SetAutoSize | storage/vendors/NetAppprov.py:236-258 | sends `AutosizeArgs`; `None` if refused, else 0 |
| NetAppProvisioning.NetAppprov.SetUpExportPolicy | storage/vendors/NetAppprov.py:185-206 | sends `PolicySteps`' requests and reports its failure |
| NetAppProvisioning.NetAppprov.CreateWithOptions | storage/vendors/NetAppprov.py:210-230 | volume-create, then the options only when it succeeds |
| NetAppProvisioning.NetAppprov.CreateInAggregate | storage/vendors/NetAppprov.py:171-234 | computes `CreateIn`'s result and requests |
| NetAppProvisioning.NetAppprov.CreateVolume | storage/vendors/NetAppprov.py:151-234 | computes `Creation`'s result and requests; connects exactly when the vserver is contacted |
| NetAppProvisioning.NetAppprov.DeleteVolume | storage/vendors/NetAppprov.py:288-320 | unmount, offline, destroy in order; the first refused step raises and later ones are not sent |
| NetAppProvisioning.NetAppprov.RestrictVolume | storage/vendors/NetAppprov.py:260-286 | a refused unmount raises; otherwise restrict is sent and the result is 0 whatever its answer |
| StorageApi.SubsystemTable | apis/storage.py:34-75 | netapp → NetappStorage, ceph and dummy → DummyStorage; the 404 message lists netapp, ceph, dummy |
| StorageApi.Backend | apis/storage.py:66-82 | an unknown subsystem aborts 404 with that message; an installed back-end is used; a missing one falls back to DummyStorage |
| StorageApi.WithHandler | apis/storage.py:43-55 | one `exception_is_errorcode` block: an exception of its kind aborts with its code and its message or `str(e)`; everything else passes through |
| StorageApi.Guarded | apis/storage.py:43-63 | nested handlers never turn a value into an error nor an error into a value; an exception is left as raised or becomes an abort; aborts pass through |
| StorageApi.GuardedOutcome | apis/storage.py:43-63 | values and aborts pass through; the innermost handler of the exception's kind aborts with its code and `str(e)` or its message; others pass through |
| StorageApi.Innermost | apis/storage.py:43-55 | the last listed handler catching the exception, or none |
| StorageApi.Status | apis/storage.py:152-154 | an exception no handler caught is a 500 |
| StorageApi.Call | apis/storage.py:179 | the operation's result on the chosen back-end, or the back-end's own failure |
| StorageApi.PostChoice | apis/storage.py:196-214 | clone exactly when both fields are set; rollback exactly when only `from_snapshot` is; otherwise create with the other fields |
| StorageApi.VolumePost | apis/storage.py:192-214 | a snapshot path fails its assertion; the chosen operation is called exactly when the back-end resolves; its success is 201 for a clone and 200 otherwise |
| StorageApi.VolumePatch | apis/storage.py:230-238 | a snapshot path fails its assertion; no non-`None` field aborts 400 without a call; otherwise the back-end is called exactly when it resolves, with exactly the non-`None` fields, and answers 200, or 404 with the message for a `KeyError`; other exceptions propagate |
| StorageApi.VolumeGet | apis/storage.py:175-179 | a snapshot path fails its assertion; otherwise the back-end's volume, a `KeyError` as 404 with its message, and any other exception as raised |
| StorageApi.VolumeDelete | apis/storage.py:221-225 | a snapshot path fails its assertion; a deletion answers 204, a `KeyError` is 404 with its message, other exceptions propagate |
| StorageApi.KeyErrorStatus | apis/storage.py:196-225 | a back-end `KeyError` is 400 on create, 404 on clone, rollback and restrict; a `ValueError` is 400 on create and clone, 500 on rollback |
| StorageApi.MissingVolumeIs404 | apis/storage.py:175-179 | a missing volume is a 404 with the back-end's message |
| StorageApi.UnknownSubsystem | apis/storage.py:66-76 | an unknown subsystem is a 404 on POST and DELETE, and on PATCH once some field is set |
| StorageApi.RenderLock | apis/storage.py:300-301 | `None` renders as `[]`, a host h as `[{"host": h}]` |
| StorageApi.LocksGet | apis/storage.py:298-301 | the rendered lock of the chosen back-end; a `KeyError` is 404 with its message, other exceptions propagate |
| StorageApi.LockPut | apis/storage.py:312-315 | 201 on success; a held lock is a 400 and a missing volume a 404 |
| Conf.ConfToDict | storage_api/conf.py:21-24 | succeeds exactly for an even-length list; otherwise an `AssertionError` |
| Conf.ConfToDictLookup | storage_api/conf.py:21-24 | `list[2i]` maps to `list[2i+1]` for the last occurrence of the key |
| Conf.ConfToDictKeys | storage_api/conf.py:21-24 | every key is an entry at an even position |
| Conf.Flatten | storage_api/conf.py:47 | the pairs laid out key, value, key, value |
| Conf.ConfToDictFlatten | storage_api/conf.py:21-24 | a flattened pair list reads back as `dict(pairs)` |
| Conf.ParseBackend | storage_api/conf.py:42-47 | accepted exactly with at least two fields, a known class and an even number of option fields; the class is known |
| Conf.LoadPlan | storage_api/conf.py:40-50 | at most one back-end per line; no failure exactly when every line gave a back-end |
| Conf.LoadPlanStopsAtFirstFailure | storage_api/conf.py:40-50 | back-ends are instantiated in order until the first failing line, whose exception is reported |
| Conf.ParseRenderLine | storage_api/conf.py:42-47 | a back-end written with 🌈 between its fields parses back to itself |
| Conf.JoinFree | storage_api/conf.py:40 | joining pieces without 🦄 gives a string without 🦄 |
| Conf.LoadRendered | storage_api/conf.py:39-47 | back-ends written with 🦄 between them all load back, in order |
| Conf.OauthSetting | storage_api/conf.py:63-69 | the variable `SAPI_OAUTH_<name>` wins, then a truthy default; with neither, a `KeyError` naming the variable |
| Conf.OauthRequiredKeys | storage_api/conf.py:74-89 | all six properties load exactly when the client id and secret key are set |
| Conf.LoadOauthSucceeds | storage_api/conf.py:74-89 | loading succeeds exactly when the client id and secret key are set, and then every `OAUTH_<name>` holds its setting |
| Conf.LoadOauthNoClientId | storage_api/conf.py:74-81 | a missing client id raises its `KeyError` and writes nothing |
| Conf.LoadOauthNoSecretKey | storage_api/conf.py:74-82 | a missing secret key raises its `KeyError` with only the client id written |
| Conf.LoadOauthFrame | storage_api/conf.py:74-89 | no configuration key outside the six `OAUTH_` ones changes |
| Conf.LoadFromFrame | storage_api/conf.py:74-89 | the properties from the i-th on touch only their own keys |
| Conf.LoadFromValues | storage_api/conf.py:74-89 | the properties from the i-th on load exactly when each has a setting, and then each holds it |
| Conf.GroupsOf | storage_api/conf.py:105-109 | the empty set exactly for the empty string |
| Conf.GroupsOfJoin | storage_api/conf.py:105-109 | comma-joined groups read back as the set of groups |
| Conf.RoleGroups | storage_api/conf.py:99-109 | no groups exactly when `SAPI_ROLE_<ROLE>_GROUPS` is unset or empty |
| Conf.App.SetOauthProperty | storage_api/conf.py:53-71 | writes `OAUTH_<name>` with `OauthSetting`, or raises and changes nothing |
| Conf.App.LoadOauthConf | storage_api/conf.py:74-89 | the outcome and the new configuration are `LoadOauth` of the old one |
| Conf.App.SetAuthString | storage_api/conf.py:92-116 | writes `<ROLE>_GROUPS`; for USER, `USER_IS_UNAUTHENTICATED` is exactly "no groups" |
| Conf.App.LoadBackendConf | storage_api/conf.py:27-50 | adds an empty `SUBSYSTEM` if missing; a missing variable is a `KeyError`; otherwise the back-ends of `LoadPlan` over the 🦄 split |

## Left out

- Logging, the `normalised_with` cerberus schema check and `init_app` registration of the in-memory back-end are not modelled; the schema only checks the shapes of returned records.
- The iteration order of Python dictionaries is an unspecified enumeration wherever the model lists a map's values (`volumes`, `policies`, `get_snapshots`). Export-rule listings and aggregate candidates are the exception: their insertion order decides the result, so they are modelled as sequences of pairs.
- Remote NetApp calls (ZAPI requests, `CreateServer`, `GetInfoPath`) are not executed. Their answers are parameters, and only the changing requests are recorded. The connection handshake failures inside `CreateServer` are not modelled.
- `ExistingVol`, `ExistingVolume`, `PolicyDelete` and the snapshot and clone operations of NetAppops.py are not part of this model. They are remote plumbing with no local decisions.
- NetAppProvisioning.NetAppprov.CreateVolume: builds the export-policy handle directly from the cluster and vserver, which is what `PolicyRulesNetApp.NewVolume` produces for the server path the constructor already parsed.
- Exceptions carry one message. The second argument (the reason) that several `StorageException` raises pass is dropped.
- The regular-expression classes `\w` and `\d` and upper/lower-casing are restricted to ASCII.
- `str(KeyError(k))` is modelled as the key in single quotes; `repr`'s escaping of keys containing quotes or control characters is not.
- NetAppRules.PolicyRulesNetApp.GetRuleAll: requires the page sequence to end (a failed page or one without a next tag), since the paging loop otherwise does not terminate.
- NetAppRules.PolicyRulesNetApp.DeleteRule: requires a reply for every re-index move.
- StorageApi.VolumePost: requires `from_snapshot`, `from_volume` and `name` in the body, which `marshal` always provides.
- The flask_restplus marshalling, field validation and authorisation decorators of the routes are not modelled. Neither are the snapshot routes beyond the status mapping they share with the volume routes.
- Conf.App.LoadBackendConf: the back-end constructors and `init_app` are not called; the method returns the back-ends it would instantiate. A constructor's own failure (NetApp's name validation) is modelled in `NetAppprov.New`, not here.
- Conf.GroupsOf: reads the group list with a plain split on ','. CSV quoting and line breaks inside the variable are not modelled.
- The environment is a map parameter; `os.environ` access itself is not modelled.
