# getter, modelled in Dafny

getter is the update checker behind UpgradeAll. It keeps a list of
tracked Android apps, resolves each app's and hub's configuration from
layered repositories of JSON rules, asks providers (GitHub, GitLab,
F-Droid, the LSPosed module repository) for their releases, tracks each
app's status against the newest release, and manages download tasks.

This project models the parts of getter whose behaviour is decided by
its own code rather than by the network, the filesystem or a foreign
library:

- **Layered configuration** (`packages/getter-config`). The repository
  list is kept in descending priority by a stable sort. For one app or
  hub id, the resolver folds the fragments of the enabled repositories
  from lowest to highest priority, falls back to the default `repo/`
  layer, and applies the local `config/` overrides last. The fold uses
  JSON Merge Patch (section 2 of RFC 7386, republished as RFC 7396). The
  layer also includes the converter from the legacy UUID-keyed cloud
  document, the tracked-app list and the tracking map.
- **App and download state**: the app-status calculation, both status
  trackers, the version-ignore map and the star set. It also covers the
  download task life cycle, the speed-sample window, the download task manager's
  map of tasks and the downloader configuration.
- **Providers**: the shared cache input and result type, the
  reverse-proxy URL rules and the provider registry. Each provider's own
  logic is covered too: GitHub token headers, cache keys and version
  selection; GitLab URLs, asset typing, the pre-release filter and
  status mapping; the LSPosed module lookup; and the F-Droid index
  decoder, which runs over a sequence of XML events.
- **Small pieces**: the cloud-rule lookups and the borrowed view of the
  rule document, the one-byte boolean cache codec, the in-memory
  concurrent cache and the command line's `KEY=value` parser.

The model has one Dafny module per source file.
- Code that builds values is written as functions, with lemmas about
  them.
- Objects whose methods update fields in place are classes whose
  methods state the whole new state.
- Loops are methods proved against the functions that specify them.
- The directory tree is a map from `<dir>/<kind>/<id>.json` to the JSON
  document stored there. A file exists when its key is in the map.
- Clocks, UUID generators, HTTP answers, the bundled LSPosed JSON and
  the foreign libraries become parameters. These libraries are version
  parsing, `urlencoding`, `serde_json` text rendering and decoding, and
  the `regex:` proxy rules.

## Model

| member | source | states |
|---|---|---|
| Collections.Position | packages/getter-config/src/rule_list.rs:121-128 | the first index holding the element, none iff it is absent |
| Collections.RemoveFirstCounts | packages/getter-config/src/rule_list.rs:121-128 | removing deletes exactly one occurrence of a present element; an absent one changes nothing |
| Collections.RemoveFirstDistinct | packages/getter-config/src/rule_list.rs:121-128 | removing from a duplicate-free list leaves it duplicate-free and without the element |
| Collections.PushAbsent | packages/getter-config/src/rule_list.rs:112-119 | the element is present afterwards and was appended only if it was absent |
| Collections.PushAll | packages/getter-config/src/cloud_sync.rs:298-303 | pushing several keeps the old entries in front, lists each pushed one, and adds nothing else |
| Collections.PushAbsentDistinct | packages/getter-config/src/rule_list.rs:112-119 | pushing keeps a duplicate-free list duplicate-free |
| Collections.PushThenRemove | packages/getter-config/src/rule_list.rs:112-128 | removing a freshly pushed element restores the list |
| MergePatch.Merge | packages/getter-config/src/app_registry.rs:376-383 | section 2 of RFC 7386: a non-object patch replaces the target; an object patch deletes its null members, merges its other members recursively and leaves members it does not mention untouched |
| MergePatch.MergeIdempotent | packages/getter-config/src/app_registry.rs:376-383 | applying the same patch twice is the same as applying it once |
| MergePatch.MergeEmptyPatch | packages/getter-config/src/app_registry.rs:376-383 | the empty object patch leaves an object unchanged |
| MergePatch.Diff | packages/getter-config/src/app_registry.rs:376-383 | a patch for reaching `dest`: an object exactly when `dest` is, null exactly when `dest` is |
| MergePatch.MergeDiff | packages/getter-config/src/app_registry.rs:376-383 | every null-free document is reachable from any source by one merge patch |
| AppRegistry.Parse | packages/getter-config/src/app_registry.rs:30-39 | an accepted identifier prints back to the input; a rejected one gets "Invalid identifier format: " and the input |
| AppRegistry.ParseAccepts | packages/getter-config/src/app_registry.rs:30-39 | `parse` succeeds exactly on `a + "::" + h` where the first "::" separates the halves (empty halves allowed) |
| AppRegistry.ToStringParse | packages/getter-config/src/app_registry.rs:30-43 | parsing the printed form of a separable identifier returns that identifier |
| AppRegistry.ToString | packages/getter-config/src/app_registry.rs:41-43 | the printed identifier of separable halves splits on "::" into exactly the two ids |
| AppRegistry.ColonFreeSeparable | packages/getter-config/src/app_registry.rs:41-43 | halves without ':' always print to a string that splits back into them |
| AppRegistry.ParseExampleAccepted | packages/getter-config/src/app_registry.rs:391-395 | "rust::github" parses to app "rust", hub "github" |
| AppRegistry.ParseOnePieceRejected | packages/getter-config/src/app_registry.rs:397 | "invalid" is rejected |
| AppRegistry.ParseThreePiecesRejected | packages/getter-config/src/app_registry.rs:398 | three colon-free pieces joined by "::" are rejected |
| AppRegistry.AppConfigToJson | packages/getter-config/src/app_registry.rs:244-254 | the document written for an app configuration deserialises back to the same configuration |
| AppRegistry.HubConfigToJson | packages/getter-config/src/app_registry.rs:256-266 | the document written for a hub configuration deserialises back to the same configuration |
| AppRegistry.FoldLayers | packages/getter-config/src/app_registry.rs:157-166 | the fold of the repository fragments yields a document iff there is at least one fragment |
| AppRegistry.Fragments | packages/getter-config/src/app_registry.rs:156-157 | the fragments are the found files in reverse of find order, one per file |
| AppRegistry.FoldOnTop | packages/getter-config/src/app_registry.rs:161-165 | a higher layer is applied as a merge patch onto the fold of the lower ones; a single layer is taken as it is |
| AppRegistry.LowestLayerVerbatim | packages/getter-config/src/app_registry.rs:163-165 | the lowest layer keeps its null members, which merging it into `{}` would drop |
| AppRegistry.TopLayerWins | packages/getter-config/src/app_registry.rs:157-166 | a scalar or array member of the highest layer is the member of the result |
| AppRegistry.Inherited | packages/getter-config/src/app_registry.rs:157-166 | a member that no higher layer mentions is inherited unchanged |
| AppRegistry.ResolveNone | packages/getter-config/src/app_registry.rs:169-193 | there is no configuration iff no repository, default or local layer exists |
| AppRegistry.DefaultShadowed | packages/getter-config/src/app_registry.rs:169-176 | the default `repo/` file is used only when no repository layer exists |
| AppRegistry.LocalLast | packages/getter-config/src/app_registry.rs:178-189 | the local `config/` file is merged last, over everything else |
| AppRegistry.HighestRepoOnTop | packages/getter-config/src/app_registry.rs:156-157 | the first-found (highest-priority) file is the top repository layer |
| AppRegistry.NotFoundIsError | packages/getter-config/src/app_registry.rs:191-194 | no layer at all gives "App configuration not found: " and the id |
| AppRegistry.KeepLines | packages/getter-config/src/app_registry.rs:86-90 | kept entries are non-blank, not comments, and no more than the lines |
| AppRegistry.KeptLinesComeFromLines | packages/getter-config/src/app_registry.rs:86-90 | every kept entry is a trimmed line of the file |
| AppRegistry.ParseAppList | packages/getter-config/src/app_registry.rs:82-93 | the loaded list has no blank, comment or multi-line entry |
| AppRegistry.SplitPiecesWithout | packages/getter-config/src/app_registry.rs:86 | the lines of the file never contain the line break |
| AppRegistry.SaveLoadRoundTrip | packages/getter-config/src/app_registry.rs:82-100 | saving a list of clean entries and loading it back gives the same list |
| AppRegistry.KeepAllClean | packages/getter-config/src/app_registry.rs:86-90 | a list of clean entries is kept entirely |
| AppRegistry.KeepSecondOfTwo | packages/getter-config/src/app_registry.rs:86-90 | a dropped line followed by a kept line keeps only the second, trimmed |
| AppRegistry.CommentsDropped | packages/getter-config/src/app_registry.rs:82-93 | a comment line in the file is gone from the loaded list |
| AppRegistry.InsertSorted | packages/getter-config/src/app_registry.rs:333-334 | inserting into a strictly sorted list keeps it strictly sorted with one more element |
| AppRegistry.SortedKeys | packages/getter-config/src/app_registry.rs:333-334 | the collected and sorted keys are strictly sorted and are exactly the key set |
| AppRegistry.AppRegistry.constructor | packages/getter-config/src/app_registry.rs:57-80 | empty caches and the app list loaded from `config/app_list`, or empty without that file |
| AppRegistry.AppRegistry.LoadAppList | packages/getter-config/src/app_registry.rs:82-93 | the list is replaced by the parsed file when it exists and kept otherwise; caches untouched |
| AppRegistry.AppRegistry.SaveAppList | packages/getter-config/src/app_registry.rs:95-100 | the list file holds the entries joined by line breaks; no other file changes |
| AppRegistry.AppRegistry.LoadMergedDoc | packages/getter-config/src/app_registry.rs:150-195 | the loop over the found files in reverse builds the layered document |
| AppRegistry.AppRegistry.LoadMergedAppConfig | packages/getter-config/src/app_registry.rs:150-195 | the merged app configuration, or the not-found or deserialisation error |
| AppRegistry.AppRegistry.LoadMergedHubConfig | packages/getter-config/src/app_registry.rs:197-242 | the merged hub configuration, or the not-found or deserialisation error |
| AppRegistry.AppRegistry.GetAppConfig | packages/getter-config/src/app_registry.rs:130-138 | a cached app configuration is returned as cached; otherwise the merged one is returned and cached on success |
| AppRegistry.AppRegistry.GetHubConfig | packages/getter-config/src/app_registry.rs:140-148 | a cached hub configuration is returned as cached; otherwise the merged one is returned and cached on success |
| AppRegistry.Cached | packages/getter-config/src/app_registry.rs:130-148 | a lookup succeeds iff the id is cached or the layers resolve it, and a cached value is returned as cached |
| AppRegistry.CacheAfter | packages/getter-config/src/app_registry.rs:130-148 | the cache keeps every old entry and gains the id exactly when the lookup succeeds |
| AppRegistry.Details | packages/getter-config/src/app_registry.rs:267-272 | fails iff the identifier does not parse (with the parse error) or the app or hub lookup fails; otherwise the two looked-up configurations |
| AppRegistry.LookedUp | packages/getter-config/src/app_registry.rs:102-107 | looking up keeps the list, caches the app on success even when the hub lookup then fails, and looks up the hub only after the app succeeded |
| AppRegistry.AddedOutcome | packages/getter-config/src/app_registry.rs:102-114 | adding succeeds iff `Details` does, with its error otherwise; on success the list gains the identifier by `PushAbsent`, on failure it is kept; the caches are those `LookedUp` leaves |
| AppRegistry.CachedAgain | packages/getter-config/src/app_registry.rs:130-148 | a lookup after caching finds what the first lookup gave, and caching again changes nothing |
| AppRegistry.DetailsRepeat | packages/getter-config/src/app_registry.rs:102-148 | a second lookup finds both configurations cached and gives the same answer; looking up twice is looking up once |
| AppRegistry.AddedTwice | packages/getter-config/src/app_registry.rs:102-114 | adding an identifier twice leaves the same result and state as adding it once |
| AppRegistry.AddStepListsAccepted | packages/getter-config/src/app_registry.rs:102-114 | `add_app` pushes exactly the identifiers it accepts and keeps the list on failure |
| AppRegistry.AppRegistry.AddApp | packages/getter-config/src/app_registry.rs:102-114 | result and new list and caches are `Added` of the old state (see `AddedOutcome`); when a new identifier is accepted the list gains it at the end and the list file is rewritten to the new list; no configuration file changes |
| AppRegistry.AppRegistry.RemoveApp | packages/getter-config/src/app_registry.rs:116-124 | reports whether the identifier was listed, removes its first occurrence and saves only then |
| AppRegistry.AppRegistry.SaveAppConfig | packages/getter-config/src/app_registry.rs:244-254 | writes the app document to `repo/` or `config/` and changes no other file |
| AppRegistry.AppRegistry.SaveHubConfig | packages/getter-config/src/app_registry.rs:256-266 | writes the hub document to `repo/` or `config/` and changes no other file |
| AppRegistry.AppRegistry.GetAppDetails | packages/getter-config/src/app_registry.rs:267-272 | the result is `Details` of the old state and the caches become `LookedUp`'s; the list and files are untouched |
| AppRegistry.AppRegistry.ClearCache | packages/getter-config/src/app_registry.rs:275-278 | both caches are emptied and the list kept |
| AppRegistry.AppRegistry.ListApps | packages/getter-config/src/app_registry.rs:126-128 | the tracked list, which is what reloading the saved list file gives when every entry is clean |
| AppRegistry.AppRegistry.ListAvailableApps | packages/getter-config/src/app_registry.rs:300-336 | sorted, duplicate-free, exactly the stems of `.json` app files of the enabled repositories (or of `repo/`) |
| AppRegistry.AppRegistry.ListAvailableHubs | packages/getter-config/src/app_registry.rs:338-374 | sorted, duplicate-free, exactly the stems of `.json` hub files of the enabled repositories (or of `repo/`) |
| AppRegistry.AppRegistry.ListAvailable | packages/getter-config/src/app_registry.rs:300-374 | the shared listing: sorted and exactly the available ids of the kind |
| Repository.InsertPermutes | packages/getter-config/src/repository.rs:64-67 | one insertion step of the stable sort adds exactly the inserted repository |
| Repository.InsertSorted | packages/getter-config/src/repository.rs:64-67 | inserting into a list in descending priority keeps it in descending priority |
| Repository.InsertStable | packages/getter-config/src/repository.rs:64-67 | an insertion keeps the relative order of repositories of equal priority |
| Repository.SortSorted | packages/getter-config/src/repository.rs:64-67 | `sort_by_priority` leaves the list in descending priority |
| Repository.SortPermutes | packages/getter-config/src/repository.rs:64-67 | the sorted list is a permutation of the list |
| Repository.SortStable | packages/getter-config/src/repository.rs:64-67 | the sort is stable: equal priorities keep their order |
| Repository.SortOfSorted | packages/getter-config/src/repository.rs:64-67 | sorting an already sorted list changes nothing |
| Repository.AddToSorted | packages/getter-config/src/repository.rs:42-45 | appending to a sorted list and sorting equals inserting after the last repository of at least that priority |
| Repository.FirstNamed | packages/getter-config/src/repository.rs:47-62 | the index of the first repository with the name, or none when no repository has it |
| Repository.EnabledOnly | packages/getter-config/src/repository.rs:69-71 | the enabled repositories, and only those |
| Repository.EnabledOnlyAppend | packages/getter-config/src/repository.rs:69-71 | the filter keeps list order |
| Repository.Locate | packages/getter-config/src/repository.rs:212-236 | found files belong to the kind and id, come from a listed repository, and every repository holding the file is found |
| Repository.LocateStep | packages/getter-config/src/repository.rs:212-223 | one iteration of the search appends the repository's file when it exists |
| Repository.DefaultOrder | packages/getter-config/src/repository.rs:92-117 | the defaults end up as "local" (100) before "getter-main" (0) |
| Repository.CustomBetweenDefaults | packages/getter-config/src/repository.rs:296-305 | a repository of priority 50 is placed between "local" and "getter-main" |
| Repository.RepositoryConfig.constructor | packages/getter-config/src/repository.rs:28-34 | the configuration holds the loaded repositories |
| Repository.RepositoryConfig.AddRepository | packages/getter-config/src/repository.rs:42-45 | appends and re-sorts: one more repository, sorted, a permutation of old plus new, stable |
| Repository.RepositoryConfig.RemoveRepository | packages/getter-config/src/repository.rs:47-54 | removes the first repository with the name and reports whether there was one; otherwise nothing changes |
| Repository.RepositoryConfig.GetRepository | packages/getter-config/src/repository.rs:56-58 | finds a repository with the name iff one is listed |
| Repository.RepositoryConfig.SortByPriority | packages/getter-config/src/repository.rs:64-67 | sorted by descending priority, a permutation, stable |
| Repository.RepositoryConfig.GetEnabledRepositories | packages/getter-config/src/repository.rs:69-71 | exactly the enabled repositories |
| Repository.RepositoryManager.constructor | packages/getter-config/src/repository.rs:81-90 | a manager over the loaded configuration |
| Repository.RepositoryManager.InitDefaultRepositories | packages/getter-config/src/repository.rs:92-117 | an empty configuration becomes "local" then "getter-main"; a non-empty one is kept |
| Repository.RepositoryManager.AddRepository | packages/getter-config/src/repository.rs:119-139 | adds an enabled repository under `repos/<name>` with no metadata, keeping the list sorted |
| Repository.RepositoryManager.RemoveRepository | packages/getter-config/src/repository.rs:141-152 | removes the first repository with the name and deletes its directory; an unknown name changes nothing |
| Repository.RepositoryManager.EnableRepository | packages/getter-config/src/repository.rs:154-164 | sets `enabled` of the first repository with the name; an unknown name changes nothing |
| Repository.RepositoryManager.SetRepositoryPriority | packages/getter-config/src/repository.rs:166-177 | sets the priority of the first repository with the name and re-sorts; an unknown name changes nothing |
| Repository.RepositoryManager.FindAppInRepositories | packages/getter-config/src/repository.rs:212-223 | the app files of the enabled repositories, in list order |
| Repository.RepositoryManager.FindHubInRepositories | packages/getter-config/src/repository.rs:225-236 | the hub files of the enabled repositories, in list order |
| Repository.RepositoryManager.FindIn | packages/getter-config/src/repository.rs:212-236 | the shared search loop: exactly `Locate` over the enabled repositories |
| CloudSync.Slug | packages/getter-config/src/cloud_sync.rs:129 | same length; each space becomes '-' and every other character is lower-cased |
| CloudSync.SlugIdempotent | packages/getter-config/src/cloud_sync.rs:129 | a slug is its own slug |
| CloudSync.SlugColonFree | packages/getter-config/src/cloud_sync.rs:129 | slugging adds no ':' |
| CloudSync.ConvertAppItem | packages/getter-config/src/cloud_sync.rs:121-159 | the id is the mapped name or the slug of the display name; the name is the display name unchanged; the metadata holds exactly the five reserved keys plus the extra map, an extra entry overriding a reserved one |
| CloudSync.ConvertHubItem | packages/getter-config/src/cloud_sync.rs:162-207 | the id follows the same rule on `hub_name`; `provider_type` is the id; the config holds exactly uuid, base_version, config_version, hub_icon_url, target_check_api, api_keywords and app_url_templates with the record's values |
| CloudSync.CreateAppIdentifierParses | packages/getter-config/src/cloud_sync.rs:251-265 | the identifier is `<app id>::<hub id>` and parses back into those halves when they have no ':' |
| CloudSync.UnmappedHubIsUnknown | packages/getter-config/src/cloud_sync.rs:251-265 | an unmapped app and hub give `<slug>::unknown` |
| CloudSync.CreateAppIdentifier | packages/getter-config/src/cloud_sync.rs:251-265 | the identifier parses back into the app id and hub id when they are separable; an unmapped hub uuid gives a hub id of "unknown" |
| CloudSync.RegisterHubs | packages/getter-config/src/cloud_sync.rs:220-224 | the table keeps every old uuid and gains every hub uuid |
| CloudSync.RegisterHubsKeys | packages/getter-config/src/cloud_sync.rs:220-224 | after registration the mapped uuids are the old ones plus every hub uuid; app uuids are never added |
| CloudSync.RegisterHubsLast | packages/getter-config/src/cloud_sync.rs:220-224 | the last hub with a uuid decides its name |
| CloudSync.RegisterHubsKeeps | packages/getter-config/src/cloud_sync.rs:220-224 | a mapping no hub mentions is kept |
| CloudSync.RegisteredHubIds | packages/getter-config/src/cloud_sync.rs:220-240 | with distinct uuids, a hub is written under its slug and apps that name it use that slug as hub id |
| CloudSync.WriteEntriesLast | packages/getter-config/src/cloud_sync.rs:227-240 | the last entry written under an id is the file left there |
| CloudSync.WriteEntriesKeeps | packages/getter-config/src/cloud_sync.rs:227-240 | files outside the written ids are kept |
| CloudSync.HubEntries | packages/getter-config/src/cloud_sync.rs:226-232 | one written hub document per hub, in list order |
| CloudSync.AppEntries | packages/getter-config/src/cloud_sync.rs:234-240 | one written app document per app, in list order |
| CloudSync.SameNameCollides | packages/getter-config/src/cloud_sync.rs:234-240 | two unmapped apps with the same slug share one file, and the later one wins |
| CloudSync.SyncedAppReadsBack | packages/getter-config/src/cloud_sync.rs:234-240 | an app written last under its id reads back as its converted configuration |
| CloudSync.CloudSync.constructor | packages/getter-config/src/cloud_sync.rs:87-92 | no URL and an empty uuid map |
| CloudSync.CloudSync.WithUrl | packages/getter-config/src/cloud_sync.rs:94-99 | the given URL and an empty uuid map |
| CloudSync.CloudSync.FetchCloudConfig | packages/getter-config/src/cloud_sync.rs:102-111 | "No cloud URL configured" without a URL, otherwise the download's result |
| CloudSync.CloudSync.SyncToRepo | packages/getter-config/src/cloud_sync.rs:210-248 | fails with "No cloud URL configured" or the download's message and then changes nothing; otherwise registers every hub name first, then writes all hubs, then all apps |
| CloudSync.CloudSync.RegisterHubNames | packages/getter-config/src/cloud_sync.rs:220-224 | the mapping loop is `RegisterHubs` over the hub list |
| CloudSync.WriteAll | packages/getter-config/src/cloud_sync.rs:227-240 | the writing loop is `WriteEntries` over the entries |
| CloudSync.SyncFromCloud | packages/getter-config/src/cloud_sync.rs:271-282 | a failed download is returned with its message and changes no file and no cache; otherwise the files are those the sync writes to `repo/` (hubs, then apps) and both configuration caches are emptied; the list is untouched |
| CloudSync.ImportCloudAppsAsWritten | packages/getter-config/src/cloud_sync.rs:285-306 | succeeds iff both downloads succeed, each failure returned with its message and changing nothing beyond the first sync; the files are those the second sync writes; the imported identifiers and registry state are the `ImportFold` of the apps, built with an empty uuid map, over the old list with emptied caches; each is listed |
| CloudSync.ImportNamesUnknownHub | packages/getter-config/src/cloud_sync.rs:289-299 | an app of a synced hub is imported with hub id "unknown", for which no hub file exists |
| CloudSync.ImportCloudApps | packages/getter-config/src/cloud_sync.rs:285-306 | corrected: a failed download is returned with its message and changes nothing; otherwise the files are those the sync writes, and the identifiers and registry state are the `ImportFold` over the old list with emptied caches, identifiers built from the hub names the sync registered; the list file is rewritten iff the list grew |
| CloudSync.ImportNamesSyncedHub | packages/getter-config/src/cloud_sync.rs:285-306 | corrected: an app of a synced hub gets that hub's slug as hub id |
| CloudSync.ImportFoldLists | packages/getter-config/src/cloud_sync.rs:298-303 | at most one identifier per app; each collected identifier was built from one of the apps and is listed; the list grows exactly by pushing the collected identifiers in order |
| CloudSync.ImportAll | packages/getter-config/src/cloud_sync.rs:298-303 | the collected identifiers and the new registry state are `ImportFold` with `add_app` as the step: each identifier is added in app order and collected iff its `add_app` succeeded; no configuration file changes; the list file is rewritten iff the list grew |
| CloudSync.ImportListed | packages/getter-config/src/cloud_sync.rs:298-303 | the same `ImportFold` result and registry state, no configuration file changed, the list file rewritten iff the list grew, and each identifier listed and built from one of the apps |
| RuleList.NewTrackedApp | packages/getter-config/src/rule_list.rs:73-81 | a new entry has no current version and no last check, is stamped with the given time and keeps the given hub and data |
| RuleList.WithVersion | packages/getter-config/src/rule_list.rs:85-98 | the updated entry has the version and the check time and keeps everything else |
| RuleList.RuleList.constructor | packages/getter-config/src/rule_list.rs:47-59 | empty app list, hub list and tracking map |
| RuleList.RuleList.AddTrackedApp | packages/getter-config/src/rule_list.rs:61-83 | returns true iff the id was not tracked; the id always maps to the fresh entry; the map grows by one only for a new id |
| RuleList.RuleList.UpdateTrackedAppVersion | packages/getter-config/src/rule_list.rs:85-98 | a tracked id gets the version and the check time and true; an untracked id changes nothing and gives false |
| RuleList.RuleList.RemoveTrackedApp | packages/getter-config/src/rule_list.rs:100-102 | returns whether the id was tracked; afterwards it is not, and every other entry is unchanged |
| RuleList.RuleList.GetTrackedApp | packages/getter-config/src/rule_list.rs:104-106 | the entry of a tracked id, none otherwise |
| RuleList.RuleList.ListTrackedApps | packages/getter-config/src/rule_list.rs:108-110 | every tracked pair exactly once, in unspecified order |
| RuleList.RuleList.PushApp | packages/getter-config/src/rule_list.rs:112-119 | appends an absent app name and says so; a present name changes nothing |
| RuleList.RuleList.RemoveApp | packages/getter-config/src/rule_list.rs:121-128 | removes the first occurrence and returns true; a missing name gives false and no change |
| RuleList.RuleList.PushHub | packages/getter-config/src/rule_list.rs:130-137 | appends an absent hub name and says so; a present name changes nothing |
| RuleList.RuleList.RemoveHub | packages/getter-config/src/rule_list.rs:139-146 | removes the first occurrence and returns true; a missing name gives false and no change |
| RuleList.DuplicateAddResets | packages/getter-config/src/rule_list.rs:202-209 | re-adding a tracked id keeps the map size and drops the recorded version |
| LayeredConfig.UpdatedInfo | packages/getter-config/src/layered_config.rs:133-145 | a supplied version replaces the stored one, an absent one keeps it; the check time is always set |
| LayeredConfig.UpdateBothOutdated | packages/getter-config/src/layered_config.rs:127-159 | supplying both versions makes the entry outdated exactly when they differ |
| LayeredConfig.OutdatedApps | packages/getter-config/src/layered_config.rs:151-159 | exactly the entries with both versions known and different, unchanged |
| LayeredConfig.SavedConfigs | packages/getter-config/src/layered_config.rs:64-73 | a supplied configuration is written to the local `config/` layer; every other file keeps its content and no file appears otherwise |
| LayeredConfig.LayeredConfig.constructor | packages/getter-config/src/layered_config.rs:26-35 | the registry and the loaded tracking map |
| LayeredConfig.LayeredConfig.AddTrackedApp | packages/getter-config/src/layered_config.rs:56-98 | a bad identifier fails with the parse error and changes nothing; otherwise the configurations are saved first, and result, list and caches are the registry's `Added` over the saved files; a failure keeps the list and tracking; success tracks the app from now on unless it was tracked already |
| LayeredConfig.LayeredConfig.Track | packages/getter-config/src/layered_config.rs:76-94 | the registry's `add_app`, then a fresh tracking entry only for an accepted identifier not yet tracked |
| LayeredConfig.LayeredConfig.RemoveTrackedApp | packages/getter-config/src/layered_config.rs:100-110 | answers whether the app was listed, removes its first occurrence and drops its tracking only then; the list file is rewritten only on a removal; no configuration file and neither cache changes |
| LayeredConfig.LayeredConfig.UpdateVersion | packages/getter-config/src/layered_config.rs:127-149 | a tracked entry is updated as `UpdatedInfo` says; an untracked id changes nothing; always Ok |
| LayeredConfig.LayeredConfig.ListTrackedApps | packages/getter-config/src/layered_config.rs:112-114 | the registry's list, which reloading the saved list file gives back when every entry is clean |
| LayeredConfig.LayeredConfig.GetTrackingInfo | packages/getter-config/src/layered_config.rs:123-125 | the entry of a tracked identifier, none for an untracked one |
| LayeredConfig.LayeredConfig.GetOutdatedApps | packages/getter-config/src/layered_config.rs:151-159 | exactly the tracked entries whose two known versions differ, unchanged |
| LegacyRuleList.RuleList.constructor | src/core/config/data/rule_list.rs:23-28 | empty app and hub lists |
| LegacyRuleList.RuleList.PushApp | src/core/config/data/rule_list.rs:30-37 | appends an absent app name and says so; a present name changes nothing |
| LegacyRuleList.RuleList.RemoveApp | src/core/config/data/rule_list.rs:39-46 | removes the first occurrence and returns true; a missing name gives false and no change |
| LegacyRuleList.RuleList.PushHub | src/core/config/data/rule_list.rs:48-55 | appends an absent hub name and says so; a present name changes nothing |
| LegacyRuleList.RuleList.RemoveHub | src/core/config/data/rule_list.rs:57-64 | removes the first occurrence and returns true; a missing name gives false and no change |
| VersionIgnore.Restrict | packages/getter-appmanager/src/version_ignore.rs:44-58 | the entries of the map whose keys are in the set |
| VersionIgnore.InsertAllIsUnion | packages/getter-appmanager/src/version_ignore.rs:51-55 | inserting the entries of some keys one by one is the union that prefers the inserted values |
| VersionIgnore.RestrictOneMore | packages/getter-appmanager/src/version_ignore.rs:51-55 | one more key adds its entry on top |
| VersionIgnore.UpdateSize | packages/getter-appmanager/src/version_ignore.rs:52 | an insert grows the map exactly when the key was absent |
| VersionIgnore.UnionGrowth | packages/getter-appmanager/src/version_ignore.rs:44-58 | the union grows by the number of new keys |
| VersionIgnore.InsertStep | packages/getter-appmanager/src/version_ignore.rs:51-55 | one loop iteration inserts one entry, growing the map only for a new key |
| VersionIgnore.InsertEnumerated | packages/getter-appmanager/src/version_ignore.rs:44-58 | inserting every current version gives the union, grown by the count of new apps |
| VersionIgnore.VersionIgnoreManager.constructor | packages/getter-appmanager/src/version_ignore.rs:12-16 | nothing ignored |
| VersionIgnore.VersionIgnoreManager.SetIgnoreVersion | packages/getter-appmanager/src/version_ignore.rs:19-22 | stores the version, replacing any earlier one, and reports whether there was one |
| VersionIgnore.VersionIgnoreManager.RemoveIgnoreVersion | packages/getter-appmanager/src/version_ignore.rs:25-28 | reports whether the app had an ignored version and forgets it |
| VersionIgnore.VersionIgnoreManager.GetIgnoreVersion | packages/getter-appmanager/src/version_ignore.rs:31-34 | the ignored version of the app, none when there is none |
| VersionIgnore.VersionIgnoreManager.IsVersionIgnored | packages/getter-appmanager/src/version_ignore.rs:37-40 | true exactly when the ignored version of the app is this version |
| VersionIgnore.VersionIgnoreManager.GetAllIgnored | packages/getter-appmanager/src/version_ignore.rs:61-64 | exactly the apps with an ignored version, each with that version, as many as `count` says |
| VersionIgnore.VersionIgnoreManager.IgnoreAllCurrentVersions | packages/getter-appmanager/src/version_ignore.rs:44-58 | every current version becomes ignored, overriding earlier ones; the count is the number of apps that had none |
| VersionIgnore.VersionIgnoreManager.ClearAll | packages/getter-appmanager/src/version_ignore.rs:67-70 | nothing ignored and a count of zero afterwards |
| VersionIgnore.VersionIgnoreManager.Count | packages/getter-appmanager/src/version_ignore.rs:73-76 | the number of apps with an ignored version |
| StarManager.StarManager.constructor | packages/getter-appmanager/src/star_manager.rs:12-16 | no starred app |
| StarManager.StarManager.SetStar | packages/getter-appmanager/src/star_manager.rs:19-26 | starring adds the app and reports whether it was new; unstarring removes it and reports whether it was there; afterwards `is_starred` is the requested flag |
| StarManager.StarManager.IsStarred | packages/getter-appmanager/src/star_manager.rs:29-32 | starred exactly when unstarring would change the set, and unstarred exactly when starring would |
| StarManager.StarManager.GetStarredApps | packages/getter-appmanager/src/star_manager.rs:35-38 | each starred app exactly once, in unspecified order |
| StarManager.StarManager.ClearAllStars | packages/getter-appmanager/src/star_manager.rs:41-44 | no starred app afterwards |
| AppStatuses.Description | src/core/app_status.rs:47-56 | every status has a non-empty description |
| AppStatuses.Default | src/core/app_status.rs:60-62 | the default status is inactive and answers false to every query |
| AppStatuses.IsActive | src/core/app_status.rs:22-24 | active exactly for the five statuses other than inactive |
| AppStatuses.IsLatest | src/core/app_status.rs:27-29 | up to date exactly when the description is "Up to date"; implies active |
| AppStatuses.HasUpdates | src/core/app_status.rs:32-34 | has updates exactly when the description is "Updates available"; implies active |
| AppStatuses.IsPending | src/core/app_status.rs:37-39 | pending exactly when the description is "Checking for updates..."; implies active |
| AppStatuses.HasError | src/core/app_status.rs:42-44 | has an error exactly when the description is "Network error"; implies active |
| AppStatuses.QueriesPartition | src/core/app_status.rs:22-44 | at most one of latest, has-updates, pending and error holds; each implies active; active with none of them is exactly "no local" |
| AppStatuses.DescriptionInjective | src/core/app_status.rs:47-56 | different statuses have different descriptions |
| ManagerStatusTracker.Fresh | packages/getter-appmanager/src/status_tracker.rs:29-39 | a new entry is inactive, for the app, with no versions and no check time |
| ManagerStatusTracker.WithStatus | packages/getter-appmanager/src/status_tracker.rs:46-57 | sets the status and the check time and keeps the rest |
| ManagerStatusTracker.WithVersions | packages/getter-appmanager/src/status_tracker.rs:59-65 | sets both versions and keeps the rest |
| ManagerStatusTracker.UpdatesCommute | packages/getter-appmanager/src/status_tracker.rs:46-65 | status updates and version updates touch disjoint fields, so their order does not matter |
| ManagerStatusTracker.StatusTracker.constructor | packages/getter-appmanager/src/status_tracker.rs:23-27 | no tracked app |
| ManagerStatusTracker.StatusTracker.AddApp | packages/getter-appmanager/src/status_tracker.rs:29-39 | the app maps to a fresh entry (re-adding resets it); every entry stays keyed by its own app id |
| ManagerStatusTracker.StatusTracker.RemoveApp | packages/getter-appmanager/src/status_tracker.rs:41-44 | the app is gone and the others are unchanged |
| ManagerStatusTracker.StatusTracker.UpdateStatus | packages/getter-appmanager/src/status_tracker.rs:46-57 | a tracked app gets the status and the check time; an untracked one changes nothing |
| ManagerStatusTracker.StatusTracker.SetVersions | packages/getter-appmanager/src/status_tracker.rs:59-65 | a tracked app gets both versions; an untracked one changes nothing |
| ManagerStatusTracker.StatusTracker.GetStatus | packages/getter-appmanager/src/status_tracker.rs:67-70 | the entry of a tracked app, whose app id is the key; none otherwise |
| ManagerStatusTracker.StatusTracker.GetAllStatuses | packages/getter-appmanager/src/status_tracker.rs:72-75 | every entry exactly once, in unspecified order |
| CoreStatusTracker.NewInfo | src/core/status_tracker.rs:22-31 | a new record is inactive, for the app, with no versions, check time or error |
| CoreStatusTracker.CalculateStatus | src/core/status_tracker.rs:70-87 | inactive iff both versions are unknown; no-local iff only the latest is known; outdated iff local compares less; latest iff it compares equal or greater; network error iff the latest is unknown or the comparison fails; never pending |
| CoreStatusTracker.NewInfoConsistent | src/core/status_tracker.rs:22-31 | the initial status is the one the calculation gives for no versions |
| CoreStatusTracker.WithRelease | src/core/status_tracker.rs:34-48 | stamps the check time; a release sets the latest version, clears the error and recalculates; no release is a network error with "No release data available" |
| CoreStatusTracker.ReleaseActivates | src/core/status_tracker.rs:34-48 | after a release the app is active, and "no local" exactly when no local version is known |
| CoreStatusTracker.WithError | src/core/status_tracker.rs:51-55 | network error with the message and the check time; versions kept |
| CoreStatusTracker.WithLocalVersion | src/core/status_tracker.rs:58-61 | sets the local version and recalculates; the error message and check time are kept |
| CoreStatusTracker.Pending | src/core/status_tracker.rs:64-67 | pending with no error; versions and check time kept |
| CoreStatusTracker.UpdatesExplainErrors | src/core/status_tracker.rs:22-67 | the new, release, error and pending updates keep an error message only alongside a network error |
| CoreStatusTracker.LocalVersionKeepsStaleError | src/core/status_tracker.rs:58-61 | setting the local version after an error can leave a "latest" status that still carries the old error message |
| CoreStatusTracker.FilterStatus | src/core/status_tracker.rs:128-135 | exactly the records with the status |
| CoreStatusTracker.FilterDistinct | src/core/status_tracker.rs:128-135 | filtering keeps app ids distinct |
| CoreStatusTracker.IdsAmong | src/core/status_tracker.rs:170-179 | the visited ids whose record has the status |
| CoreStatusTracker.AmongStep | src/core/status_tracker.rs:174-176 | visiting one more record adds one to the count of its own status only |
| CoreStatusTracker.CountStep | src/core/status_tracker.rs:174-176 | one iteration of the counting loop keeps each count equal to the number of visited ids with that status |
| CoreStatusTracker.AmongPartition | src/core/status_tracker.rs:170-179 | the counts of the six statuses over the visited ids add up to the number of visited ids |
| CoreStatusTracker.AmongTotalStep | src/core/status_tracker.rs:174-176 | one more visited id raises the total by one |
| CoreStatusTracker.EmptyAmong | src/core/status_tracker.rs:172 | nothing is counted before the loop |
| CoreStatusTracker.CountsSumToSize | src/core/status_tracker.rs:170-179 | counts equal to the per-status id sets add up to the number of tracked apps |
| CoreStatusTracker.StatusTracker.constructor | src/core/status_tracker.rs:97-101 | no tracked app |
| CoreStatusTracker.StatusTracker.AddApp | src/core/status_tracker.rs:104-107 | the app maps to a new record, replacing any earlier one |
| CoreStatusTracker.StatusTracker.RemoveApp | src/core/status_tracker.rs:110-113 | reports whether the app was tracked and forgets it |
| CoreStatusTracker.StatusTracker.GetStatus | src/core/status_tracker.rs:116-119 | the record of a tracked app, keyed by its own id; none otherwise |
| CoreStatusTracker.StatusTracker.GetAllStatuses | src/core/status_tracker.rs:122-125 | every record exactly once, in unspecified order |
| CoreStatusTracker.StatusTracker.GetAppsWithStatus | src/core/status_tracker.rs:128-135 | exactly the records with the status, each once |
| CoreStatusTracker.StatusTracker.SetPending | src/core/status_tracker.rs:138-143 | a tracked record becomes pending; an untracked id changes nothing |
| CoreStatusTracker.StatusTracker.UpdateWithRelease | src/core/status_tracker.rs:146-151 | a tracked record is updated as `WithRelease` says; an untracked id changes nothing |
| CoreStatusTracker.StatusTracker.UpdateWithError | src/core/status_tracker.rs:154-159 | a tracked record is updated as `WithError` says; an untracked id changes nothing |
| CoreStatusTracker.StatusTracker.SetLocalVersion | src/core/status_tracker.rs:162-167 | a tracked record is updated as `WithLocalVersion` says; an untracked id changes nothing |
| CoreStatusTracker.StatusTracker.GetStatusCounts | src/core/status_tracker.rs:170-179 | each status maps to the number of apps with it, only statuses that occur are keys, and the counts add up to the number of apps |
| CoreStatusTracker.StatusTracker.GetOutdatedApps | src/core/status_tracker.rs:182-184 | exactly the outdated records, each once |
| CoreStatusTracker.StatusTracker.GetErrorApps | src/core/status_tracker.rs:187-189 | exactly the records with a network error, each once |
| CoreStatusTracker.StatusTracker.Clear | src/core/status_tracker.rs:192-195 | no tracked app afterwards |
| DownloadStates.StateClasses | src/downloader/state.rs:166-192 | terminal is exactly not active; pausable implies active and not resumable; failed is the only state both resumable and terminal |
| DownloadStates.IsTerminal | src/downloader/state.rs:168-173 | terminal exactly when not pending, downloading or stopped |
| DownloadStates.IsActive | src/downloader/state.rs:176-181 | active exactly when not completed, failed or cancelled |
| DownloadStates.IsResumable | src/downloader/state.rs:184-186 | resumable exactly when stopped or failed, never pending, downloading, completed or cancelled |
| DownloadStates.IsPausable | src/downloader/state.rs:189-191 | pausable only while downloading |
| DownloadStates.NoProgress | src/downloader/state.rs:195-208 | the default progress: nothing downloaded, nothing known |
| DownloadStates.WithSpeed | src/downloader/state.rs:222-240 | the time left exists iff the size and a positive speed are known and bytes remain, and is the remaining bytes divided by the speed, rounded down |
| DownloadStates.CompleteHasNoEta | src/downloader/state.rs:222-260 | a complete download reports no time left; an incomplete one with a known size and positive speed always does |
| DownloadStates.NewTask | src/downloader/state.rs:329-396 | a new task is pending, with no progress, no error, no timestamps but its creation, no range support and the given headers and cookies |
| DownloadStates.MarksReachTheirStates | src/downloader/state.rs:398-434 | each mark sets its own state (Downloading, Completed, Failed, Cancelled, Stopped, Downloading) and its own time stamp or message; stopping records the downloaded bytes as the resume offset; resuming clears the pause time; every other field, progress, headers and cookies included, is unchanged |
| DownloadStates.MarkStarted | src/downloader/state.rs:399-402 | downloading, with the start time; every other field kept |
| DownloadStates.MarkCompleted | src/downloader/state.rs:405-408 | completed, with the completion time; every other field kept |
| DownloadStates.MarkFailed | src/downloader/state.rs:411-415 | failed, with the message and the completion time; every other field kept |
| DownloadStates.MarkCancelled | src/downloader/state.rs:418-421 | cancelled, with the completion time; every other field kept |
| DownloadStates.MarkStopped | src/downloader/state.rs:424-428 | stopped, with the downloaded bytes as resume offset and the pause time; every other field kept |
| DownloadStates.MarkResumed | src/downloader/state.rs:431-434 | downloading, with no pause time; every other field kept |
| DownloadStates.DropStale | src/downloader/state.rs:49-57 | dropping stale samples from the front leaves a first sample no older than the cutoff |
| DownloadStates.DropStaleSuffix | src/downloader/state.rs:49-57 | what remains is a suffix of the samples |
| DownloadStates.KeepLast | src/downloader/state.rs:62-65 | at most the limit, and the newest ones |
| DownloadStates.SuffixKeepsOrder | src/downloader/state.rs:49-65 | a suffix of time-ordered samples within a window stays so |
| DownloadStates.DropStaleWindow | src/downloader/state.rs:49-57 | after dropping, every sample lies between the cutoff and now |
| DownloadStates.AppendKeepsOrder | src/downloader/state.rs:59-60 | appending the newest sample keeps time order |
| DownloadStates.Recorded | src/downloader/state.rs:41-66 | a recording keeps at most the sample limit |
| DownloadStates.RecordEndsWithSample | src/downloader/state.rs:41-66 | the newest sample is the last one kept |
| DownloadStates.RecordKeepsWindow | src/downloader/state.rs:41-66 | after a recording the samples are in time order and within the window |
| DownloadStates.DropStaleStep | src/downloader/state.rs:51-57 | one iteration of the dropping loop removes one stale sample |
| DownloadStates.KeepLastStep | src/downloader/state.rs:63-65 | one iteration of the limiting loop removes the oldest sample |
| DownloadStates.SpeedCalculator.constructor | src/downloader/state.rs:26-33 | no samples, no start time, the given window and a limit of 64 samples |
| DownloadStates.SpeedCalculator.Record | src/downloader/state.rs:41-66 | the samples become `Recorded` of the old ones; the start time is set on the first recording only |
| DownloadStates.SpeedCalculator.Reset | src/downloader/state.rs:92-95 | no samples and no start time |
| DownloaderConfig.Default | src/downloader/config.rs:48-69 | the trauma backend, 4 concurrent downloads, 3 retries, a 300-second timeout and no custom command |
| DownloaderConfig.WithBackend | src/downloader/config.rs:79-82 | sets the backend and keeps every other field |
| DownloaderConfig.WithMaxConcurrent | src/downloader/config.rs:85-88 | sets the concurrency limit and keeps every other field |
| DownloaderConfig.WithRetries | src/downloader/config.rs:91-94 | sets the retry count and keeps every other field |
| DownloaderConfig.WithTimeout | src/downloader/config.rs:97-100 | sets the timeout and keeps every other field |
| DownloaderConfig.WithCustomCommand | src/downloader/config.rs:103-106 | sets the custom command and keeps every other field |
| DownloaderConfig.BuildersSetOnlyTheirField | src/downloader/config.rs:79-106 | each builder sets its own field and leaves every other field as it was, so builders on different fields commute |
| DownloaderConfig.BuildersReachAll | src/downloader/config.rs:74-106 | chaining the builders from the default reaches any configuration that has a custom command |
| DownloaderConfig.ParseUnsigned | src/downloader/config.rs:129-145 | an accepted number fits in 64 bits and starts with a digit or `+`; a leading `-` is refused |
| DownloaderConfig.RenderedDigits | src/downloader/config.rs:129-145 | the decimal rendering of a number is all digits and reads back as that number |
| DownloaderConfig.ParseRendered | src/downloader/config.rs:129-145 | every 64-bit value parses back from its rendering, with or without `+`, and 2^64 is refused |
| DownloaderConfig.ParseRejectsBare | src/downloader/config.rs:129-145 | the empty string, a lone `+` and a lone `-` are refused |
| DownloaderConfig.NumberFrom | src/downloader/config.rs:129-145 | an unset variable or one that does not parse keeps the default; otherwise its parsed value is used |
| DownloaderConfig.FromEnv | src/downloader/config.rs:116-152 | each numeric field comes from its variable as `NumberFrom` says, the custom command from FETCHCOMMAND, the backend is always trauma, and with no variable set the result is the default |
| TaskManager.NotFound | src/downloader/task_manager.rs:149-155 | a task-not-found error naming the id |
| TaskManager.AlreadyExists | src/downloader/task_manager.rs:62-89 | a task-already-exists error naming the id |
| TaskManager.StateName | src/downloader/task_manager.rs:198-201 | the `{:?}` name of a state, a capitalised word |
| TaskManager.StateNameInjective | src/downloader/task_manager.rs:198-201 | different states have different names, so an error message names the state the task was in |
| TaskManager.Select | src/downloader/task_manager.rs:164-181 | exactly the download tasks whose state is kept, no more of them than given |
| TaskManager.SelectDistinct | src/downloader/task_manager.rs:164-181 | selecting from tasks with distinct ids keeps them distinct |
| TaskManager.Retained | src/downloader/task_manager.rs:419-438 | keeps every non-terminal task unchanged, keeps a terminal task exactly when it has no completion time or completed less than the maximum age ago, and drops every terminal task whose completion is at least that old |
| TaskManager.RetainedIdempotent | src/downloader/task_manager.rs:419-438 | a second cleanup at the same time removes nothing more |
| TaskManager.FinishAfterCancelOverwrites | src/downloader/task_manager.rs:461-544 | a download that ends after its task was cancelled overwrites the cancelled state with completed or failed |
| TaskManager.BatchStep | src/downloader/task_manager.rs:137-146 | submitting the next new id of a batch keeps the batch invariant one item further |
| TaskManager.BatchClash | src/downloader/task_manager.rs:137-146 | a batch meets an existing id only if its ids repeat or one was already taken |
| TaskManager.DownloadTaskManager.constructor | src/downloader/task_manager.rs:35-45 | no tasks, and the downloader's pause and resume support |
| TaskManager.DownloadTaskManager.SubmitTaskWithOptions | src/downloader/task_manager.rs:102-131 | a taken id fails with already-exists and changes nothing; a new id gets a new pending task with the headers and cookies and is returned |
| TaskManager.DownloadTaskManager.SubmitTask | src/downloader/task_manager.rs:62-89 | as above, without headers or cookies |
| TaskManager.DownloadTaskManager.SubmitBatch | src/downloader/task_manager.rs:137-146 | succeeds iff the ids are distinct and none is taken, then returns them with a new task under each; a failure is already-exists; existing tasks are never changed and only batch ids are added |
| TaskManager.DownloadTaskManager.GetTask | src/downloader/task_manager.rs:149-155 | the download task under the id, or not-found |
| TaskManager.DownloadTaskManager.GetAllTasks | src/downloader/task_manager.rs:158-161 | every task exactly once |
| TaskManager.DownloadTaskManager.GetTasksByState | src/downloader/task_manager.rs:164-171 | exactly the download tasks in the state, each once |
| TaskManager.DownloadTaskManager.GetActiveTasks | src/downloader/task_manager.rs:174-181 | exactly the tasks in an active state (`is_active`: pending, downloading or stopped), each once |
| TaskManager.DownloadTaskManager.CancelTask | src/downloader/task_manager.rs:192-209 | not-found for an unknown id; an invalid-input error naming the state for a terminal task; otherwise the download task is marked cancelled |
| TaskManager.DownloadTaskManager.PauseTask | src/downloader/task_manager.rs:219-257 | unsupported without pause support; not-found, or invalid input naming the state when not pausable; the downloader's failure is passed on; on success the download task is stopped |
| TaskManager.DownloadTaskManager.ResumeTask | src/downloader/task_manager.rs:267-366 | unsupported without resume support; not-found, or invalid input naming the state when not resumable; on success the download task is downloading again |
| TaskManager.DownloadTaskManager.CleanupOldTasks | src/downloader/task_manager.rs:419-438 | the download tasks become those `Retained` keeps, so every expired terminal task is removed and every other task stays as it was |
| TaskManager.DownloadTaskManager.RemoveTask | src/downloader/task_manager.rs:441-458 | not-found for an unknown id; "Cannot remove active task" for a non-terminal one; a terminal task is removed |
| TaskManager.DownloadTaskManager.StartTask | src/downloader/task_manager.rs:463-474 | a task that exists and is not cancelled is marked started; otherwise nothing changes |
| TaskManager.DownloadTaskManager.FinishTask | src/downloader/task_manager.rs:533-541 | the download's result marks the download task completed or failed with its message; an unknown id changes nothing |
| TaskManager.DownloadTaskManager.ExecuteTask | src/downloader/task_manager.rs:461-544 | an unknown or cancelled task is left alone; otherwise the task map is the old one with just that task replaced by its started-then-completed or started-then-failed form, with the start and finish times and the error message |
| BaseProvider.GetCache | src/websdk/repo/provider/base_provider.rs:72-79 | a cached value exists iff there is a cache and it holds the key, and it is the value stored there |
| BaseProvider.HttpStatusClasses | packages/getter-utils/src/http.rs:230-236 | success and redirect statuses are ok; client and server errors and codes outside 100-999 are not |
| BaseProvider.NewOut | src/websdk/repo/provider/base_provider.rs:89-94 | the data with no cache |
| BaseProvider.NewEmpty | src/websdk/repo/provider/base_provider.rs:96-104 | the "no data" error with no cache |
| BaseProvider.SetCache | src/websdk/repo/provider/base_provider.rs:106-110 | the key reads back the value, every other key reads back what it did, and the result is kept |
| BaseProvider.SetError | src/websdk/repo/provider/base_provider.rs:112-115 | the result becomes the error of that kind and message; the cache is kept |
| BaseProvider.SetData | src/websdk/repo/provider/base_provider.rs:117-120 | the result becomes the data; the cache is kept |
| BaseProvider.SetCachedMap | src/websdk/repo/provider/base_provider.rs:122-125 | every key reads back exactly from the given map; the result is kept |
| BaseProvider.CacheRoundTrip | src/websdk/repo/provider/base_provider.rs:106-125 | a stored cache entry reads back, other keys and the result are untouched, and setting data or an error keeps the cache |
| BaseProvider.LatestRelease | src/websdk/repo/provider/base_provider.rs:138-160 | the first release of the list, the list's error passed on, or "no data" (not found) for an empty list; the cache is passed on |
| BaseProvider.Lines | src/websdk/repo/provider/base_provider.rs:169 | `str::lines`: the empty text has no lines; otherwise the pieces between line breaks, without a final empty piece, each stripped of one carriage return before its line break |
| BaseProvider.StripCr | src/websdk/repo/provider/base_provider.rs:169 | a line loses at most one final carriage return |
| BaseProvider.LinesJoin | src/websdk/repo/provider/base_provider.rs:169 | lines without breaks or final carriage returns, the last non-empty, come back from their newline-joined text |
| BaseProvider.LinesOfSplit | src/websdk/repo/provider/base_provider.rs:169 | a text whose break-separated pieces have no final carriage return and do not end empty has those pieces as its lines |
| BaseProvider.ParseRuleFirstArrow | src/websdk/repo/provider/base_provider.rs:170-176 | a rule line splits at its first `->`, both sides trimmed |
| BaseProvider.ParseRuleNoArrow | src/websdk/repo/provider/base_provider.rs:170-176 | a line without `->` has an empty replacement |
| BaseProvider.Rules | src/websdk/repo/provider/base_provider.rs:168-176 | the parsed lines kept when both sides are non-empty: every rule is such a pair and there are no more rules than lines |
| BaseProvider.KeepRules | src/websdk/repo/provider/base_provider.rs:176 | the pairs with a non-empty pattern and replacement, and exactly those, in order |
| BaseProvider.KeepRulesAppend | src/websdk/repo/provider/base_provider.rs:176 | the filter keeps order: filtering a concatenation concatenates the filtered parts |
| BaseProvider.ParseAll | src/websdk/repo/provider/base_provider.rs:170-175 | one parsed pair per line, in line order |
| BaseProvider.RulesMembers | src/websdk/repo/provider/base_provider.rs:168-176 | every rule is the parse of some line, and every line that parses to a rule gives one |
| BaseProvider.RulesAppend | src/websdk/repo/provider/base_provider.rs:168-176 | the rules of concatenated texts are the concatenated rules, so rules keep line order |
| BaseProvider.ToMapLastOfKey | src/websdk/repo/provider/base_provider.rs:177 | collecting into a map keeps, for each pattern, the pair that no later pair overrides |
| BaseProvider.ToMap | src/websdk/repo/provider/base_provider.rs:166-182 | every rule's pattern is a key, every entry comes from a rule, and the last rule's entry is its own |
| BaseProvider.UrlProxyMap | src/websdk/repo/provider/base_provider.rs:166-182 | no `reverse_proxy` entry gives no rules; every entry has a non-empty pattern and replacement |
| BaseProvider.UrlProxyMapRules | src/websdk/repo/provider/base_provider.rs:166-182 | every entry of the map is one of the rules of the `reverse_proxy` text, and every rule's pattern is a key |
| BaseProvider.LastRuleWins | src/websdk/repo/provider/base_provider.rs:166-182 | a rule that no later rule overrides with the same pattern is the map's entry for that pattern |
| BaseProvider.ApplyRules | src/websdk/repo/provider/base_provider.rs:184-198 | no rules leave the URL as it is |
| BaseProvider.LiteralRuleIsJoinSplit | src/websdk/repo/provider/base_provider.rs:190-195 | a literal pattern replaces every occurrence, and a URL without it is unchanged |
| BaseProvider.LiteralExamples | src/websdk/repo/provider/base_provider.rs:409-420 | the patterns of the multiple-rule example are literal |
| BaseProvider.ReplaceOnce | src/websdk/repo/provider/base_provider.rs:190-195 | replacing a pattern that occurs once replaces just that occurrence |
| BaseProvider.HttpsToHttp | src/websdk/repo/provider/base_provider.rs:409-420 | the `https -> http` rule rewrites the scheme only |
| BaseProvider.GithubToProxy | src/websdk/repo/provider/base_provider.rs:409-420 | the `github -> github-proxy` rule rewrites the host word only |
| BaseProvider.TwoRules | src/websdk/repo/provider/base_provider.rs:184-198 | two rules apply one after the other |
| BaseProvider.ProxyRulesCompose | src/websdk/repo/provider/base_provider.rs:409-420 | the two example rules give the same URL in either map order |
| BaseProvider.HttpsFirst | src/websdk/repo/provider/base_provider.rs:409-420 | scheme rule then host rule gives the expected URL |
| BaseProvider.GithubFirst | src/websdk/repo/provider/base_provider.rs:409-420 | host rule then scheme rule gives the expected URL |
| BaseProvider.ApplyRulesStep | src/websdk/repo/provider/base_provider.rs:186-196 | one iteration of the rule loop applies the next rule to the running URL |
| BaseProvider.EntriesHaveKeys | src/websdk/repo/provider/base_provider.rs:186-196 | the entries visited by the loop all have non-empty patterns from the map |
| BaseProvider.NoRulesNoOrder | src/websdk/repo/provider/base_provider.rs:166-168 | a hub without `reverse_proxy` has no rules to enumerate |
| BaseProvider.ReplaceProxyUrl | src/websdk/repo/provider/base_provider.rs:184-198 | the URL with every rule of the hub's map applied in one enumeration of the map; unchanged without rules |
| GitHub.TokenHeader | packages/getter-provider/src/providers/github.rs:34-47 | no header iff the hub token is blank or missing and the app has no token; otherwise a bearer header with the non-blank hub token, else the app token |
| GitHub.BlankHubTokenIgnored | packages/getter-provider/src/providers/github.rs:34-47 | a blank hub token counts as no hub token |
| GitHub.HubTokenWins | packages/getter-provider/src/providers/github.rs:34-47 | a non-blank hub token is used whatever the app holds |
| GitHub.CacheRequestKey | packages/getter-provider/src/providers/github.rs:62-82 | one key: the repository page plus "/HEAD" for the availability check, the release list URL for both release calls, a missing owner or repo rendered as "" |
| GitHub.CacheKeysAgree | packages/getter-provider/src/providers/github.rs:62-82 | the two release calls share their key, and a missing owner or repo gives the same key as an empty one |
| GitHub.ReleaseKeysDistinguishRepos | packages/getter-provider/src/providers/github.rs:62-82 | different repositories (owners without `/`) get different release keys |
| GitHub.StripAround | packages/getter-provider/src/providers/github.rs:62-82 | equal keys with the same text around the field have equal fields |
| GitHub.SplitAtFirst | packages/getter-provider/src/providers/github.rs:62-82 | two joins at a separator absent from the first parts are equal only part by part |
| GitHub.SeparatorPosition | packages/getter-provider/src/providers/github.rs:62-82 | the separator is first found right after a part without it |
| GitHub.FirstValid | packages/getter-provider/src/providers/github.rs:186-195 | the first key whose string value is a valid version; none iff no key gives one |
| GitHub.VersionOf | packages/getter-provider/src/providers/github.rs:181-195 | a found version is valid; there is none iff no key to try gives a valid string |
| GitHub.SelectVersion | packages/getter-provider/src/providers/github.rs:186-195 | the loop over the keys finds `VersionOf` |
| GitHub.VersionKeyPreferred | packages/getter-provider/src/providers/github.rs:181-195 | the hub's version key wins when it gives a valid version; otherwise "name", then "tag_name" |
| GitHub.ParseAsset | packages/getter-provider/src/providers/github.rs:166-177 | an asset parses iff it has string name, content type and download URL, and carries exactly those |
| GitHub.ParseAssets | packages/getter-provider/src/providers/github.rs:162-180 | only parsed assets, no more than given |
| GitHub.AllAssetsParse | packages/getter-provider/src/providers/github.rs:162-180 | when every asset parses, all are kept in order |
| GitHub.ReleaseAssets | packages/getter-provider/src/providers/github.rs:162-180 | no "assets" gives none; the release is dropped iff "assets" is not an array |
| GitHub.ParseRelease | packages/getter-provider/src/providers/github.rs:160-210 | a release parses iff its assets are usable, a valid version is found and "body" is a string; it carries them, and the version code extra iff the hub names a present field |
| GitHub.ReleaseList | packages/getter-provider/src/providers/github.rs:159-211 | only parsed releases, no more than given |
| GitHub.ReleaseListSkips | packages/getter-provider/src/providers/github.rs:159-211 | a release that does not parse is skipped |
| GitHub.AssetKept | packages/getter-provider/src/providers/github.rs:162-180 | an asset that parses is kept in front of the following ones; one that does not is dropped |
| GitHub.ParseAssetsAppend | packages/getter-provider/src/providers/github.rs:162-180 | assets keep their order: parsing a concatenation concatenates the parsed parts |
| GitHub.ReleaseListKeeps | packages/getter-provider/src/providers/github.rs:159-211 | a release that parses is kept in front of the releases after it |
| GitHub.ReleaseListAppend | packages/getter-provider/src/providers/github.rs:159-211 | releases keep their order: listing a concatenation concatenates the listed parts |
| GitHub.MissingField | packages/getter-provider/src/providers/github.rs:113-127 | the error with the message and no cache |
| GitHub.ReleasesOutcome | packages/getter-provider/src/providers/github.rs:131-219 | a cached body caches nothing new; a fetched body is cached under the URL; with neither, "no data"; a body that decodes gives the releases parsed from it, one that does not leaves "no data" |
| GitHub.FetchReleases | packages/getter-provider/src/providers/github.rs:112-220 | missing owner or repo errors; otherwise `ReleasesOutcome` for the release URL after the hub's proxy rules |
| GitHub.FetchUsesAnnouncedKey | packages/getter-provider/src/providers/github.rs:62-82 | without proxy rules the release call caches under the key it announces |
| GitHub.CheckAvailable | packages/getter-provider/src/providers/github.rs:84-110 | missing owner or repo errors; otherwise available iff the HEAD request to the proxied repository page answers an ok status |
| GitLab.ApiBase | packages/getter-provider/src/providers/gitlab.rs:39-43 | an https URL ending in "/api/v4", 15 characters longer than the given host |
| GitLab.ApiBaseHost | packages/getter-provider/src/providers/gitlab.rs:39-43 | no host means gitlab.com, and the given host sits right after "https://" |
| GitLab.ProjectUrl | packages/getter-provider/src/providers/gitlab.rs:45-49 | the API base, then "/projects/", then the encoded project id |
| GitLab.ReleasesUrl | packages/getter-provider/src/providers/gitlab.rs:51-55 | the project URL followed by "/releases" |
| GitLab.PrefixOfConcat | packages/getter-provider/src/providers/gitlab.rs:45-55 | a URL built by appending starts with what it extends |
| GitLab.UrlsExtendProject | packages/getter-provider/src/providers/gitlab.rs:45-55 | the release URL is the project URL plus "/releases", the paged one extends it, and both start with the API base |
| GitLab.BuildHeaders | packages/getter-provider/src/providers/gitlab.rs:57-66 | the user agent, plus a bearer authorization exactly when a token is given |
| GitLab.LinkAsset | packages/getter-provider/src/providers/gitlab.rs:78-90 | a link gives an asset iff its name and URL are strings; the type is its link type or "unknown" |
| GitLab.MimeType | packages/getter-provider/src/providers/gitlab.rs:100-106 | the four known archive formats get their own type, anything else is an octet stream |
| GitLab.MimeTypesDistinct | packages/getter-provider/src/providers/gitlab.rs:100-106 | different known formats get different types |
| GitLab.SourceAsset | packages/getter-provider/src/providers/gitlab.rs:93-110 | a source gives an asset iff its format and URL are strings, named tag.format with the format's type |
| GitLab.LinkAssets | packages/getter-provider/src/providers/gitlab.rs:78-90 | all links, in order, iff every link is well formed |
| GitLab.SourceAssets | packages/getter-provider/src/providers/gitlab.rs:93-110 | all sources, in order, iff every source is well formed |
| GitLab.ReleaseOf | packages/getter-provider/src/providers/gitlab.rs:68-134 | a release iff it has a string tag and well-formed links and sources; the tag as version, the description or "" as changelog, links then sources as assets, no extra |
| GitLab.CollectLinks | packages/getter-provider/src/providers/gitlab.rs:78-90 | the loop over the links computes `LinkAssets` |
| GitLab.CollectSources | packages/getter-provider/src/providers/gitlab.rs:93-110 | the loop over the sources computes `SourceAssets` |
| GitLab.ParseReleaseData | packages/getter-provider/src/providers/gitlab.rs:68-134 | computes `ReleaseOf` |
| GitLab.ParsedReleases | packages/getter-provider/src/providers/gitlab.rs:327-334 | only releases that parse, no more than given |
| GitLab.ParsedReleaseKept | packages/getter-provider/src/providers/gitlab.rs:327-334 | a release that parses is kept in front of the ones after it; one that does not is dropped |
| GitLab.ParsedReleasesAppend | packages/getter-provider/src/providers/gitlab.rs:327-334 | releases keep their order: parsing a concatenation concatenates the parsed parts |
| GitLab.ReleasesFrom | packages/getter-provider/src/providers/gitlab.rs:327-334 | an answer that is not an array has no releases; an array gives its parsed releases |
| GitLab.Stable | packages/getter-provider/src/providers/gitlab.rs:136-158 | exactly the releases without a pre-release marker |
| GitLab.StableAppend | packages/getter-provider/src/providers/gitlab.rs:136-158 | filtering distributes over concatenation |
| GitLab.StableIdempotent | packages/getter-provider/src/providers/gitlab.rs:136-158 | filtering twice is filtering once |
| GitLab.FilterPrereleases | packages/getter-provider/src/providers/gitlab.rs:136-158 | with pre-releases included the list is unchanged; otherwise exactly the stable releases |
| GitLab.CacheRequestKey | packages/getter-provider/src/providers/gitlab.rs:171-209 | one key per call kind: host and project, with gitlab.com and "unknown" as defaults, and for release calls the pre-release flag |
| GitLab.KeysSeparateCalls | packages/getter-provider/src/providers/gitlab.rs:171-209 | different call kinds never share a key |
| GitLab.KeyDefaults | packages/getter-provider/src/providers/gitlab.rs:171-209 | a missing project or host keys like the default, and any flag other than "true" keys like no flag |
| GitLab.Failure | packages/getter-provider/src/providers/gitlab.rs:258-265 | the error with the message and no cache |
| GitLab.AvailabilityOutcome | packages/getter-provider/src/providers/gitlab.rs:222-254 | a result only for status 200 (true) or 404 (false); otherwise the invalid URL, request failure or HTTP error message; no cache |
| GitLab.CheckAvailable | packages/getter-provider/src/providers/gitlab.rs:211-255 | missing project is an error with no request; a URL that does not parse sends none; otherwise a request to the project URL with the hub's headers, and `AvailabilityOutcome` |
| GitLab.ReleasesResponse | packages/getter-provider/src/providers/gitlab.rs:279-336 | releases iff the URL parses, the request succeeds, the status is 200 and the body decodes, then the parsed and filtered releases; otherwise "Invalid URL: " or "Request failed: " with the reason, "HTTP error: " with the status, or "Failed to read response: " or "Failed to parse JSON: " with the decoder's reason |
| GitLab.LatestOutcome | packages/getter-provider/src/providers/gitlab.rs:279-348 | the first filtered release, cached under the URL; "No releases found" for none; errors cache nothing |
| GitLab.ListOutcome | packages/getter-provider/src/providers/gitlab.rs:370-438 | the filtered releases cached under the URL, or the response's error with no cache |
| GitLab.LatestIsHeadOfList | packages/getter-provider/src/providers/gitlab.rs:257-439 | the latest release is the head of the release list, with the same errors |
| GitLab.LatestIsStable | packages/getter-provider/src/providers/gitlab.rs:136-158 | without pre-releases the latest release is never a pre-release |
| GitLab.CachedUnderUrlNotKey | packages/getter-provider/src/providers/gitlab.rs:171-209 | the release calls cache under their URL, which is never the key they announce |
| GitLab.FetchLatest | packages/getter-provider/src/providers/gitlab.rs:257-349 | missing project is an error with no request; a URL that does not parse sends none; otherwise a request to the release URL with the hub's headers and `LatestOutcome` |
| GitLab.FetchReleases | packages/getter-provider/src/providers/gitlab.rs:351-439 | as above for the paged release URL and `ListOutcome` |
| Lsposed.ModuleVersion | packages/getter-provider/src/providers/lsposed.rs:37-41 | the name of the module's first release, or "1.0.0" when there is none or it has no string name |
| Lsposed.ModuleRelease | packages/getter-provider/src/providers/lsposed.rs:37-89 | the version, the description or (when empty) the summary, one zip asset named package-version.zip at the module's URL or the default one, and the package id, name and summary as extra |
| Lsposed.FirstNamed | packages/getter-provider/src/providers/lsposed.rs:33-36 | the first module whose name is the package id; none iff no module has it |
| Lsposed.ParseModule | packages/getter-provider/src/providers/lsposed.rs:32-95 | none iff the data is not an array or no module has the name; otherwise the release of a module with that name |
| Lsposed.FirstModuleWins | packages/getter-provider/src/providers/lsposed.rs:32-95 | with several modules of one name, the first is reported |
| Lsposed.ParseModuleFromJson | packages/getter-provider/src/providers/lsposed.rs:32-95 | the loop over the modules computes `ParseModule` |
| Lsposed.FirstNamedAt | packages/getter-provider/src/providers/lsposed.rs:33-36 | the first index holding the name is what the search returns |
| Lsposed.CacheRequestKey | packages/getter-provider/src/providers/lsposed.rs:108-127 | one key: "lsposed:check:" plus the package id (or "unknown") for the check, "lsposed:modules" for the release calls |
| Lsposed.CheckKeysDistinct | packages/getter-provider/src/providers/lsposed.rs:108-127 | different packages get different check keys, never the modules key |
| Lsposed.CacheKeyExample | packages/getter-provider/src/providers/lsposed.rs:197-212 | the keys of the cache-key example |
| Lsposed.Failure | packages/getter-provider/src/providers/lsposed.rs:131-137 | the error with the message and no cache |
| Lsposed.CheckAvailable | packages/getter-provider/src/providers/lsposed.rs:129-151 | missing package id or unreadable module data are errors; otherwise whether the module is listed; no cache |
| Lsposed.LatestRelease | packages/getter-provider/src/providers/lsposed.rs:153-177 | the same errors, then the module's release or "Module not found in LSPosed repository" |
| Lsposed.AllReleases | packages/getter-provider/src/providers/lsposed.rs:179-185 | the latest release as a one-element list, or its error |
| Lsposed.CallsAgree | packages/getter-provider/src/providers/lsposed.rs:129-185 | the check answers iff it has a package and data, says true iff the latest release is found, and the list holds one zip release |
| FDroid.GetUrls | packages/getter-provider/src/providers/fdroid.rs:29-41 | the hub's repository URL or f-droid.org, and the hub's index URL or the repository URL plus "/repo/index.xml" |
| FDroid.ApiUrlOf | packages/getter-provider/src/providers/fdroid.rs:29-31 | the repository URL followed by "/repo/index.xml" |
| FDroid.UrlDefaults | packages/getter-provider/src/providers/fdroid.rs:29-41 | an empty hub uses f-droid.org and its index; a derived index URL extends the repository URL |
| FDroid.CacheRequestKey | packages/getter-provider/src/providers/fdroid.rs:56-70 | one key: the package page for the check, the index URL for the release calls |
| FDroid.ReleaseKeysShared | packages/getter-provider/src/providers/fdroid.rs:56-70 | every app of a hub shares one index key |
| FDroid.Reader.constructor | packages/getter-provider/src/providers/fdroid.rs:128-129 | a reader at the start of the event stream |
| FDroid.Reader.ReadEvent | packages/getter-provider/src/providers/fdroid.rs:163 | the next event and one step forward, or none at the end |
| FDroid.AddText | packages/getter-provider/src/providers/fdroid.rs:175-186 | text never changes the open tag |
| FDroid.ScanPackage | packages/getter-provider/src/providers/fdroid.rs:162-189 | a package scan stops within the stream |
| FDroid.AfterLastDot | packages/getter-provider/src/providers/fdroid.rs:191 | the text after the last dot, or the whole name without a dot |
| FDroid.FileTypeIsExtension | packages/getter-provider/src/providers/fdroid.rs:191 | the file type of name.ext is ext |
| FDroid.PackageRelease | packages/getter-provider/src/providers/fdroid.rs:190-203 | the collected version and changelog, one asset at url/apkname typed by its extension, and the codes as extra iff any were read |
| FDroid.DecodePackageXml | packages/getter-provider/src/providers/fdroid.rs:154-204 | a reader error gives none; otherwise `PackageRelease` of the scan, with the reader after the scan |
| FDroid.PackageStopsAtClose | packages/getter-provider/src/providers/fdroid.rs:170-174 | the scan ends right after the closing package tag and ignores what follows |
| FDroid.ExtraIffCodeText | packages/getter-provider/src/providers/fdroid.rs:180-182 | the extra is empty iff no text follows a versionCode or nativecode tag |
| FDroid.TextsFollowLastOpened | packages/getter-provider/src/providers/fdroid.rs:166-186 | text after a closing tag still goes to the last opened tag, and a later code text replaces an earlier one |
| FDroid.ScanApplication | packages/getter-provider/src/providers/fdroid.rs:211-239 | the scan keeps the releases already read, in order, and stops within the stream |
| FDroid.FinishApplication | packages/getter-provider/src/providers/fdroid.rs:240-244 | a non-empty application changelog replaces the first release's changelog only |
| FDroid.DecodeReleaseXml | packages/getter-provider/src/providers/fdroid.rs:206-246 | a reader error gives none; otherwise the finished scan, with the reader after it |
| FDroid.IdOf | packages/getter-provider/src/providers/fdroid.rs:259-262 | the value of the first `id` attribute; none iff there is none |
| FDroid.ScanForApplication | packages/getter-provider/src/providers/fdroid.rs:252-272 | the scan stops within the stream, and the end of the stream gives an empty id and no releases |
| FDroid.GetReleasesFromXml | packages/getter-provider/src/providers/fdroid.rs:248-273 | the id and releases of the next application with an `id`, or an empty id at the end; none on a reader error |
| FDroid.IdOfFirst | packages/getter-provider/src/providers/fdroid.rs:259-262 | the first `id` attribute is the one read |
| FDroid.Applications | packages/getter-provider/src/providers/fdroid.rs:130-141 | the loop's successive results end with the empty id that stops it |
| FDroid.LastMatchFrom | packages/getter-provider/src/providers/fdroid.rs:135-137 | the releases of the last application with the package id, or what was held before when none has it |
| FDroid.UnknownPackageEmpty | packages/getter-provider/src/providers/fdroid.rs:127-141 | an unknown package has no releases; a package listed once has its application's releases |
| FDroid.SelectPackageReleases | packages/getter-provider/src/providers/fdroid.rs:127-141 | the loop over the applications returns the last match's releases |
| FDroid.Failure | packages/getter-provider/src/providers/fdroid.rs:97-104 | the error with the message and no cache |
| FDroid.CheckAvailable | packages/getter-provider/src/providers/fdroid.rs:72-92 | a missing package id is an error; otherwise available iff the HEAD request to the proxied package page answers a 2xx status |
| FDroid.ReleasesOutcome | packages/getter-provider/src/providers/fdroid.rs:94-148 | a missing package id is an error; no index gives "no data"; otherwise the package's releases from the cached or fetched index, and a fetched index is cached under the index key |
| FDroid.FetchReleases | packages/getter-provider/src/providers/fdroid.rs:94-148 | the outcome above; a cached index makes no request, otherwise the request goes to the proxied index URL |
| ProviderManagement.Lookup | packages/getter-provider/src/lib.rs:39-41 | a provider iff the name is registered, and the one registered under it |
| ProviderManagement.RegisterThenLookup | packages/getter-provider/src/lib.rs:34-41 | after registering, the provider's name finds it and every other name finds what it found before |
| ProviderManagement.BuiltinsReachable | packages/getter-provider/src/lib.rs:34-37 | the four built-in providers have different names, so all stay reachable |
| ProviderManagement.ProviderManager.constructor | packages/getter-provider/src/lib.rs:27-32 | no providers |
| ProviderManagement.ProviderManager.RegisterProvider | packages/getter-provider/src/lib.rs:34-37 | the provider is stored under its friendly name, replacing any earlier one |
| ProviderManagement.ProviderManager.GetProvider | packages/getter-provider/src/lib.rs:39-41 | `Lookup` on the registered providers |
| ProviderManagement.ProviderManager.Dispatch | packages/getter-provider/src/lib.rs:43-77 | the registered provider's answer, or "Provider '<name>' not found" |
| ProviderManagement.FreshManagerFindsNothing | packages/getter-provider/src/lib.rs:27-77 | a new manager answers every call with the not-found error |
| ProviderManagement.ReRegisterReplaces | packages/getter-provider/src/lib.rs:34-41 | of two registrations under one name, the second stays |
| CloudRuleData.DefaultViewer | src/websdk/cloud_rules/data/config_list.rs:16-23 | the default view lists no apps and no hubs |
| CloudRuleData.Viewer | src/websdk/cloud_rules/data/config_list.rs:34-41 | a view with the document's apps and hubs, in order |
| CloudRuleData.ToOwned | src/websdk/cloud_rules/data/config_list.rs:43-50 | a document with the view's apps and hubs, in order |
| CloudRuleData.ToOwnedViewer | src/websdk/cloud_rules/data/config_list.rs:34-50 | owning a view of a document gives the document back |
| CloudRuleData.ViewerToOwned | src/websdk/cloud_rules/data/config_list.rs:34-50 | viewing an owned copy of a view gives the view back |
| CloudRuleData.DefaultOwnsNothing | src/websdk/cloud_rules/data/config_list.rs:16-50 | the owned copy of the default view is the empty document |
| CloudRules.Matching | src/websdk/cloud_rules/cloud_rules_wrapper.rs:22-36 | no more matches than items |
| CloudRules.MatchingMembers | src/websdk/cloud_rules/cloud_rules_wrapper.rs:22-36 | an item is a match iff it is listed and the filter accepts it |
| CloudRules.FirstMatch | src/websdk/cloud_rules/cloud_rules_wrapper.rs:38-48 | none iff the filter accepts no item; otherwise an accepted item with no accepted item before it |
| CloudRules.AtMostFirst | src/websdk/cloud_rules/cloud_rules_wrapper.rs:30-32 | at most one item, the first when there is one |
| CloudRules.MatchingPrefix | src/websdk/cloud_rules/cloud_rules_wrapper.rs:27-34 | the matches of a prefix are a prefix of the matches |
| CloudRules.FirstMatchIsHead | src/websdk/cloud_rules/cloud_rules_wrapper.rs:6-36 | the first match is the head of the list of matches, and none exactly when that list is empty |
| CloudRules.FoundIsHead | src/websdk/cloud_rules/cloud_rules_wrapper.rs:6-36 | a found first match heads the list of matches |
| CloudRules.NothingAccepted | src/websdk/cloud_rules/cloud_rules_wrapper.rs:22-36 | items none of which is accepted give no matches |
| CloudRules.KeepAllIsIdentity | src/websdk/cloud_rules/cloud_rules_wrapper.rs:89-97 | a filter accepting everything lists every app, in order |
| CloudRules.KeepNoneFindsNothing | src/websdk/cloud_rules/cloud_rules_wrapper.rs:67-70 | a filter accepting nothing finds no app and no list |
| CloudRules.FirstMatchUnique | src/websdk/cloud_rules/cloud_rules_wrapper.rs:42-46 | the first accepted index decides the first match |
| CloudRules.CloudRules.constructor | src/websdk/cloud_rules/cloud_rules.rs:26-31 | the URL and no document |
| CloudRules.CloudRules.GetConfigList | src/websdk/cloud_rules/cloud_rules.rs:33-38 | the default view before any download; afterwards a view that owns back to the document |
| CloudRules.CloudRules.Renew | src/websdk/cloud_rules/cloud_rules.rs:40-44 | a downloaded document replaces the held one and is what later views show; a failed download is passed on and changes nothing |
| CloudRules.CloudRules.GetCloudAppRulesFrom | src/websdk/cloud_rules/cloud_rules_wrapper.rs:22-36 | all matching apps in order, or only the first of them when asked |
| CloudRules.CloudRules.GetCloudAppRules | src/websdk/cloud_rules/cloud_rules_wrapper.rs:6-13 | the first matching app |
| CloudRules.CloudRules.GetCloudAppRulesList | src/websdk/cloud_rules/cloud_rules_wrapper.rs:15-20 | every matching app, in order |
| CloudRules.CloudRules.GetCloudHubRules | src/websdk/cloud_rules/cloud_rules_wrapper.rs:38-48 | the first matching hub |
| CacheConvert.BoolToBytes | src/cache/convert.rs:3-9 | one byte, 1 for true and 0 for false |
| CacheConvert.BytesToBool | src/cache/convert.rs:11-13 | true iff the first byte is 1 |
| CacheConvert.BoolRoundTrip | src/cache/convert.rs:3-13 | decoding an encoded flag gives it back |
| CacheConvert.OnlyFirstByteRead | src/cache/convert.rs:11-13 | bytes after the first are ignored |
| CacheConvert.OtherBytesAreFalse | src/cache/convert.rs:11-13 | any first byte other than 1 reads as false |
| ConcurrentCaches.ConcurrentCache.constructor | packages/getter-cache/src/concurrent.rs:19-23 | an empty cache |
| ConcurrentCaches.ConcurrentCache.Get | packages/getter-cache/src/concurrent.rs:28-31 | a value iff the key is stored, and the stored one |
| ConcurrentCaches.ConcurrentCache.Set | packages/getter-cache/src/concurrent.rs:33-37 | the key now maps to the value; other keys unchanged |
| ConcurrentCaches.ConcurrentCache.Remove | packages/getter-cache/src/concurrent.rs:39-43 | the key is gone; other keys unchanged |
| ConcurrentCaches.ConcurrentCache.Clear | packages/getter-cache/src/concurrent.rs:45-49 | nothing stored |
| ConcurrentCaches.NewCacheIsEmpty | packages/getter-cache/src/concurrent.rs:19-31 | a new cache finds no key |
| ConcurrentCaches.SetThenGet | packages/getter-cache/src/concurrent.rs:28-37 | a set value reads back and other keys read as before |
| ConcurrentCaches.RemoveThenGet | packages/getter-cache/src/concurrent.rs:28-43 | a removed key reads as none |
| ConcurrentCaches.ClearThenGet | packages/getter-cache/src/concurrent.rs:28-49 | after clearing every key reads as none |
| KeyVal.FindChar | src/main.rs:72-74 | none iff the character is absent; otherwise its first position |
| KeyVal.ParseKeyVal | src/main.rs:71-76 | an error naming the argument iff it has no `=`; otherwise a key without `=` such that key, `=` and value make the argument |
| KeyVal.FindCharAfter | src/main.rs:72-74 | the first `=` is the one after a key without `=` |
| KeyVal.SplitIsUnique | src/main.rs:71-76 | joining a key without `=` and any value with `=` parses back to that key and value |
| KeyVal.Examples | src/main.rs:71-76 | the value may hold `=`, the key may be empty, and an argument without `=` is refused |

## Left out

- Concurrency: the locks, mutexes and read-write locks around the maps. Each operation is one atomic step with the lock held.
- Change notifications (`notify_waiters`) and `wait_for_change` in src/downloader/task_manager.rs. They only wake waiters and change no state.
- The spawned download in src/downloader/task_manager.rs, and `resume_task`'s restart of it. The downloader's answer is a parameter of `ExecuteTask` and `FinishTask`.
- `get_capabilities` and the downloader constructors `new`/`from_config`: they only read the downloader's capability flags, which the model keeps as the two constants of `DownloadTaskManager`.
- `SpeedCalculator::speed_bytes_per_sec` and `DownloadProgress::percentage`: both compute in `f64`. The speed reaches `WithSpeed` as a parameter.
- Floating-point JSON numbers: JSON values hold integers only.
- Unicode `to_lowercase` in the cloud converter's slugs: the model lower-cases ASCII letters only.
- Version validity and comparison (the regular expression plus libversion behind `Version`): these are parameters.
- `urlencoding::encode` of GitLab project ids, `serde_json` parsing and text rendering, and `String::from_utf8`: these are parameters.
- `regex:` proxy rules: the regex engine is a parameter. The `$` group expansion in the replacement belongs to that engine and is not modelled.
- `HashMap` iteration order: the model states results for some enumeration of the map rather than a fixed order, as in `ReplaceProxyUrl`, `GetAllTasks` and `GetAllStatuses`.
- HTTP: every request is replaced by its answer, passed as a parameter. In the GitLab provider a URL that does not parse is an answer of its own (`BadUrl`) and sends no request; elsewhere URL parsing failures count as failed requests.
- The proxy-rule text is split with modern `str::lines`: a carriage return is dropped only before a line break, so a final "\r" with no line break after it stays in the last line.
- Serialisation: serde round trips, `RepositoryConfig::load/save`, `save_tracking`/`load_tracking`, the `uuid_mapping.json` write and the `app_list` file's encoding. The file contents are JSON values or lines in the file map.
- `sync_repository`/`sync_all_repositories`: they run git over the network.
- `CloudSync::load_from_file`, because it reads a file outside the modelled tree.
- `CloudRules` download (`download_config_list`): the downloaded document is the parameter of `Renew`.
- The lifetimes of the borrowed `ConfigListViewer`: a borrowed item and an owned item are one value here.
- packages/getter-appmanager/src/app_status.rs is not part of this model. Its tracker uses the six-variant status of src/core/app_status.rs instead.
- packages/getter-provider/src/base_provider.rs is not part of this model. The providers use the shared types of src/websdk/repo/provider/base_provider.rs, which the crate's own copy mirrors.
- The F-Droid XML tokeniser (quick_xml): the model reads a sequence of events with names and texts already decoded. Malformed attributes are dropped, as `filter_map(|id| id.ok())` drops them.
- `get_uuid` and `get_friendly_name` of each provider: they return constants, which are `GitHubProvider`, `GitLabProvider`, `LsposedProvider` and `FDroidProvider`.
- The `name` and `released_at` fields of a GitLab release: `parse_release_data` reads them into the unused locals `_name` and `_released_at` (packages/getter-provider/src/providers/gitlab.rs:70, 72), so they do not reach the returned release.
- Integer widths: the model uses unbounded integers. `usize`/`u64` parsing in `FromEnv` is bounded to 64 bits explicitly; the time left in `WithSpeed` subtracts only under the guard `total > downloaded`.
- DownloadStates.SpeedCalculator.Record: `record` computes its cutoff as `now - Duration::from_secs(window_secs)` on a monotonic `Instant` (src/downloader/state.rs:50), which panics when the window reaches back before the clock's origin; the model's cutoff `now - windowSecs` is an integer that may go negative, and then no sample is dropped instead of the call panicking.

## Findings

| source | as written | input that shows it | evidently intended | confidence | as-written member | corrected member |
|---|---|---|---|---|---|---|
| packages/getter-config/src/cloud_sync.rs:285-306 | `import_cloud_apps` builds identifiers with a fresh `CloudSync` whose uuid map is empty, so every hub id is "unknown" | a cloud document with hub `{uuid: "h1", hub_name: "GitHub"}` and an app whose `base_hub_uuid` is "h1": the identifier is `<app>::unknown`, no hub `unknown` exists, `add_app` fails and the app is not imported | identifiers use the hub names that `sync_from_cloud` just registered (`<app>::github`) | not executed | CloudSync.ImportCloudAppsAsWritten, CloudSync.ImportNamesUnknownHub | CloudSync.ImportCloudApps, CloudSync.ImportNamesSyncedHub |
