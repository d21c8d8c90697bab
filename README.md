# Plugin inventory queries and air-gapped bundle upload

This project models two parts of the Tanzu CLI plugin machinery and proves properties of them.

1. **The plugin inventory** (`pkg/plugininventory`). The store is one table, `PluginBinaries`, with one row per (PluginName, Target, Version, OS, Architecture).
   - `GetAllPlugins` groups the rows into one `PluginInventoryEntry` per (PluginName, Target).
   - `GetPlugins` first keeps the rows that pass a `PluginInventoryFilter`, then groups them the same way.
   - An entry lists its versions in ascending precedence order. It maps each version to that version's artifacts, one per row. An artifact's image is the repository root, then `/`, then the row's URI.
   - An entry names a recommended version: the stored non-empty `RecommendedVersion` when there is one, and otherwise the highest version.
   - The filter version `latest` selects each plugin's recommended version, computed over all of that plugin's rows.
   - A store file without the table gives the error `unable to setup DB`. A filter that matches nothing gives an empty list and no error.
   - The scenarios of the unit tests are proved as lemmas over the same fixture rows (module `InventoryFixtures`).
2. **Uploading a plugin bundle to an air-gapped repository** (`UploadPluginBundle`, `pkg/airgapped`). The steps are:
   - create a temporary directory;
   - extract the bundle into it;
   - read and parse the migration manifest;
   - copy each image of the manifest to the destination repository, in order;
   - download the inventory metadata image already published there, and merge it into the bundled metadata database only if the download succeeded;
   - push the database as the metadata image;
   - form the inventory image's URL.

   Every failure ends the run, and the temporary directory is removed on every path out.
   - The collaborators are oracles that succeed or fail, gathered in `Env`: the file system, tar extraction, YAML parsing, `JoinURL`, and the image operations.
   - The run is the method `UploadPluginBundle`. It is proved equal to the function `Run`, which records each outside effect, in order, in a trace.
   - The properties are proved about `Run`: ordering, short-circuiting, the metadata phase, the single push and the removal of the directory.

Files:
- `wrappers.dfy`: `Option` and `Result`.
- `semver.dfy`: versions `vMAJOR.MINOR.PATCH`, with their precedence, textual form and sorted version lists.
- `inventory.dfy`: rows, entries, filters and the two queries.
- `inventory_fixtures.dfy`: the unit-test scenarios.
- `bundle_upload.dfy`: the upload.

## Model

| member | source | states |
|---|---|---|
| Semver.Less | pkg/plugininventory/plugin_inventory.go:33-36 | precedence compares the major number first: a smaller major number always has lower precedence, a larger one never, and no version precedes itself |
| Semver.Format | pkg/plugininventory/plugin_inventory.go:29-32 | the textual form is at least six characters, starts with `v`, and splits on `.` into the three canonical numerals of major, minor and patch |
| Semver.Parse | pkg/plugininventory/sqlite_inventory_test.go:273 | a text reads as a version only if it starts with `v` and has at least six characters (`v0.0.0`) |
| Semver.LessIsStrictTotalOrder | pkg/plugininventory/plugin_inventory.go:33-36 | version precedence is irreflexive, transitive, asymmetric and total, so "ascending order" is well defined |
| Semver.ParseFormat | pkg/plugininventory/plugin_inventory.go:29-32 | every version reads back from its textual form `vMAJOR.MINOR.PATCH` |
| Semver.FormatParse | pkg/plugininventory/plugin_inventory.go:29-32 | every text that reads as a version is exactly that version's textual form (no leading zeros, three components) |
| Semver.FormatMatchesParse | pkg/plugininventory/sqlite_inventory_test.go:270-276 | comparing a filter's version text with a row's version is the same as parsing the text to that version |
| Semver.FormatInjective | pkg/plugininventory/plugin_inventory.go:29-36 | distinct versions have distinct textual forms |
| Semver.SortVersions | pkg/plugininventory/plugin_inventory.go:33-36 | the version list is strictly ascending and has exactly the versions of its input |
| Semver.StrictlySortedUnique | pkg/plugininventory/plugin_inventory.go:33-36 | two ascending lists with the same elements are equal, so the sorted list is unique |
| Semver.SortVersionsOrderIndependent | pkg/plugininventory/plugin_inventory.go:33-36 | the sorted version list does not depend on the order or repetition of the input |
| Semver.SortedLastIsGreatest | pkg/plugininventory/plugin_inventory.go:33-36 | the last version of an ascending list is its greatest |
| PluginInventory.TargetOfStored | pkg/plugininventory/sqlite_inventory_test.go:219 | the Target column reads as a target exactly when it is that target's short name (the test expects `kubernetes` here, the empty name at line 251 and `mission-control` at line 411) |
| PluginInventory.GroupRows | pkg/plugininventory/sqlite_inventory_test.go:211-265 | a plugin's rows are exactly the table's rows with its (name, target), there are some iff the plugin is in the table |
| PluginInventory.GroupHeadIsEarliest | pkg/plugininventory/sqlite_inventory_test.go:216-222 | the first of a plugin's rows, from which its entry takes description, publisher and vendor, is the plugin's earliest row in the table: no row before it has the plugin's name and target |
| PluginInventory.RowKeys | pkg/plugininventory/sqlite_inventory_test.go:211-214 | the plugins of the table, each exactly once |
| PluginInventory.RecommendedVersion | pkg/plugininventory/sqlite_inventory_test.go:399-410 | a stored recommendation wins; without one the result is a version of the rows that no other row's version exceeds |
| PluginInventory.ArtifactOf | pkg/plugininventory/sqlite_inventory_test.go:228-236 | an artifact carries its row's OS, architecture and digest, and its image is the repository root, `/`, then the row's URI |
| PluginInventory.ArtifactsAt | pkg/plugininventory/sqlite_inventory_test.go:224-246 | the artifacts at a version are exactly those of the rows at that version, one per row at that version |
| PluginInventory.MakeEntrySpec | pkg/plugininventory/plugin_inventory.go:15-39 | an entry is valid (ascending versions, artifact keys equal to the versions, no empty list); its versions and artifacts are exactly its rows', with as many artifacts at each version as rows at it; its description, publisher and vendor are those of its first row; its recommended version is the RecommendedVersion of its rows: the stored one, or without one an available version that no other exceeds |
| PluginInventory.Aggregate | pkg/plugininventory/sqlite_inventory_test.go:211-265 | one entry per plugin of the table and no other, each built from that plugin's rows, no plugin twice |
| PluginInventory.SelectedRows | pkg/plugininventory/sqlite_inventory_test.go:268-276 | the selected rows are exactly the rows of the list that match every field of the filter, "latest" aside |
| PluginInventory.LatestRowsMembers | pkg/plugininventory/sqlite_inventory_test.go:299-307 | the rows kept for "latest" are exactly those at their plugin's recommended version, computed over the whole table |
| PluginInventory.Selected | pkg/plugininventory/sqlite_inventory_test.go:268-307 | the rows GetPlugins groups are exactly the table's rows that match every field of the filter and, with "latest", are at their plugin's unfiltered recommended version |
| PluginInventory.PluginEntrySpec | pkg/plugininventory/plugin_inventory.go:15-39 | the entry made for a plugin describes exactly that plugin's rows (their versions, one artifact per row at each version), takes its description, publisher and vendor from the plugin's first row, and recommends the RecommendedVersion of those rows: the stored version or, without one, the highest of their versions |
| PluginInventory.GetAllPlugins | pkg/plugininventory/plugin_inventory.go:41-46 | fails, with "unable to setup DB", exactly when the store has no table; every entry it gives is a plugin of the table |
| PluginInventory.GetPlugins | pkg/plugininventory/sqlite_inventory_test.go:268-297 | fails, with "unable to setup DB", exactly when the store has no table; every entry it gives is a plugin of the table |
| PluginInventory.VersionMatches | pkg/plugininventory/sqlite_inventory_test.go:270-276 | an empty or "latest" version field matches every row; any other matches a row exactly when it reads as that row's version |
| PluginInventory.RowMatches | pkg/plugininventory/sqlite_inventory_test.go:270-276 | the empty filter matches every row, and a row that matches a literal version field is at the version the field reads as |
| PluginInventory.GetAllPluginsSpec | pkg/plugininventory/plugin_inventory.go:41-46 | GetAllPlugins on a table succeeds with one entry per plugin, in both directions, with no plugin twice, each describing its plugin's rows (versions, one artifact per row), with the description, publisher and vendor of the plugin's first row and the RecommendedVersion of the plugin's rows (stored, or else highest) |
| PluginInventory.GetAllPluginsMetadata | pkg/plugininventory/sqlite_inventory_test.go:216-254 | when that plugin's rows agree on description, publisher and vendor (other plugins need not), its GetAllPlugins entry reports those of any of its rows |
| PluginInventory.GetPluginsMetadata | pkg/plugininventory/sqlite_inventory_test.go:280-287 | the same for GetPlugins under any filter: when that plugin's rows agree on them, the entry reports the description, publisher and vendor of any of its rows, passing or not |
| PluginInventory.EntryCount | pkg/plugininventory/sqlite_inventory_test.go:211-214 | the number of entries equals the number of distinct (name, target) pairs |
| PluginInventory.AggregateKeys | pkg/plugininventory/sqlite_inventory_test.go:211-214 | the entries' keys are the table's plugins, each once |
| PluginInventory.StoredRecommendationWins | pkg/plugininventory/sqlite_inventory_test.go:218 | when a plugin's row stores a recommended version, the entry reports it, even below its highest version |
| PluginInventory.HighestVersionRecommended | pkg/plugininventory/sqlite_inventory_test.go:399-410 | when no row of a plugin stores one, the entry recommends an available version that no other available version exceeds |
| PluginInventory.EmptyFilterIsGetAllPlugins | pkg/plugininventory/plugin_inventory.go:41-46 | GetPlugins with an empty filter, whose every field matches all values, is GetAllPlugins on every store |
| PluginInventory.MissingTableIsError | pkg/plugininventory/sqlite_inventory_test.go:136-154 | a store without the table fails with "unable to setup DB", for any filter |
| PluginInventory.NoMatchIsEmpty | pkg/plugininventory/sqlite_inventory_test.go:424-435 | GetPlugins gives an empty list and no error iff no row passes the filter |
| PluginInventory.FilteredArtifacts | pkg/plugininventory/sqlite_inventory_test.go:268-296 | every reported artifact comes from a passing row of its plugin at its version, and every passing row is reported |
| PluginInventory.PlatformFilter | pkg/plugininventory/sqlite_inventory_test.go:289-295 | an OS or architecture filter leaves only artifacts for that platform |
| PluginInventory.ExactVersionFilter | pkg/plugininventory/sqlite_inventory_test.go:270-291 | a literal version filter leaves only the version that the text names |
| PluginInventory.SelectWholeGroup | pkg/plugininventory/sqlite_inventory_test.go:330-342 | when all of a plugin's rows pass, selection keeps all of them |
| PluginInventory.PluginLevelFilter | pkg/plugininventory/sqlite_inventory_test.go:330-369 | a name, target, publisher or vendor filter gives exactly the GetAllPlugins entries that match, whole |
| PluginInventory.StoredRecommendationSurvivesFilter | pkg/plugininventory/sqlite_inventory_test.go:283 | a stored recommendation is reported under any filter that keeps the plugin |
| PluginInventory.LatestSelectsRecommended | pkg/plugininventory/sqlite_inventory_test.go:299-307 | with "latest", the kept rows of a plugin are at its unfiltered recommended version |
| PluginInventory.LatestResolvesToRecommended | pkg/plugininventory/sqlite_inventory_test.go:299-328 | with "latest", each entry lists exactly its plugin's unfiltered recommended version and recommends it |
| PluginInventory.AvailableVersionsOrderIndependent | pkg/plugininventory/plugin_inventory.go:33-36 | an entry's version list does not depend on the order of its rows |
| InventoryFixtures.StoredTargets | pkg/plugininventory/sqlite_inventory_test.go:219 | 'k8s' reads as kubernetes, 'global' as the empty name, 'tmc' as mission-control |
| InventoryFixtures.MissingTableScenario | pkg/plugininventory/sqlite_inventory_test.go:136-154 | the store without the table fails with "unable to setup DB" |
| InventoryFixtures.EmptyTableScenario | pkg/plugininventory/sqlite_inventory_test.go:156-182 | the empty table gives an empty list and no error |
| InventoryFixtures.TwoPluginsKeys | pkg/plugininventory/sqlite_inventory_test.go:43-96 | the four fixture rows hold two plugins |
| InventoryFixtures.K8sEntry | pkg/plugininventory/sqlite_inventory_test.go:216-246 | management-cluster: recommended v0.28.0, versions [v0.26.0, v0.28.0], two artifacts at v0.28.0 and one at v0.26.0 with the test's images |
| InventoryFixtures.IsolatedEntry | pkg/plugininventory/sqlite_inventory_test.go:247-264 | isolated-cluster: global, v1.2.3 recommended, one artifact |
| InventoryFixtures.TwoPluginsScenario | pkg/plugininventory/sqlite_inventory_test.go:210-266 | GetAllPlugins on the two-plugin table gives exactly those two entries |
| InventoryFixtures.ExactVersionScenario | pkg/plugininventory/sqlite_inventory_test.go:268-297 | the exact name/target/version/OS/arch filter gives the windows artifact at v0.26.0, still recommending v0.28.0 |
| InventoryFixtures.LatestScenario | pkg/plugininventory/sqlite_inventory_test.go:299-328 | "latest" for darwin/amd64 gives the darwin artifact at v0.28.0 alone |
| InventoryFixtures.VendorScenario | pkg/plugininventory/sqlite_inventory_test.go:330-349 | the vendor filter keeps management-cluster with both versions |
| InventoryFixtures.PublisherScenario | pkg/plugininventory/sqlite_inventory_test.go:351-369 | the publisher filter keeps isolated-cluster alone |
| InventoryFixtures.TmcEntry | pkg/plugininventory/sqlite_inventory_test.go:97-124 | the mission-control rows make an entry with versions [v0.0.1, v0.0.2] recommending v0.0.2 |
| InventoryFixtures.MissionControlScenario | pkg/plugininventory/sqlite_inventory_test.go:398-422 | GetAllPlugins on those rows gives that single entry |
| InventoryFixtures.NoMatchScenario | pkg/plugininventory/sqlite_inventory_test.go:424-435 | a version the table lacks gives an empty list and no error |
| BundleUpload.UploadImage | pkg/airgapped/plugin_bundle_upload.go:109-140 | one copy effect from the tar to the repository path; fails iff the copy fails, with that path's upload error |
| BundleUpload.MergePluginInventoryMetadata | pkg/airgapped/plugin_bundle_upload.go:144-159 | the download is tried first; a failed download ends the step without error; otherwise the merge runs and only its failure is an error |
| BundleUpload.CopyImages | pkg/airgapped/plugin_bundle_upload.go:61-76 | the count of uploaded images and the trace are at most the number of images; a loop without failure uploaded every image; a failure is a repository path error or an upload error |
| BundleUpload.MergeMetadata | pkg/airgapped/plugin_bundle_upload.go:144-159 | the download into `inventory-metadata` under the temporary directory is the first effect; nothing is pushed; the only failure is the merge error, and it happens exactly when the download succeeds and the merge fails |
| BundleUpload.Publish | pkg/airgapped/plugin_bundle_upload.go:80-106 | its failures are the metadata phase's own errors; every push sends the bundled database to the metadata image's joined URL; on success the last effect is a push |
| BundleUpload.Process | pkg/airgapped/plugin_bundle_upload.go:42-106 | the extraction of the tar into the temporary directory is the first effect; a setup error happens exactly when the tar cannot be extracted or the manifest cannot be read or parsed |
| BundleUpload.Run | pkg/airgapped/plugin_bundle_upload.go:34-107 | the first effect creates the temporary directory; the run fails with the temp-directory error exactly when that fails; otherwise the last effect removes the directory |
| BundleUpload.CopyBundleImages | pkg/airgapped/plugin_bundle_upload.go:61-76 | the loop's effects, counter and failure are those of CopyImages |
| BundleUpload.PublishMetadata | pkg/airgapped/plugin_bundle_upload.go:80-106 | the metadata phase's effects and failure are those of Publish |
| BundleUpload.ProcessBundle | pkg/airgapped/plugin_bundle_upload.go:42-106 | everything after the temporary directory is created is Process |
| BundleUpload.UploadPluginBundle | pkg/airgapped/plugin_bundle_upload.go:34-107 | the whole run's error, effects and upload count are those of Run |
| BundleUpload.CopyImagesOutcome | pkg/airgapped/plugin_bundle_upload.go:61-76 | the first `uploaded` images succeed in order; the loop fails iff not every image was uploaded, and the image after them gives the error |
| BundleUpload.CopyImagesTrace | pkg/airgapped/plugin_bundle_upload.go:65-73 | effect j of the loop copies image j from its tar file to its repository path; one effect per attempted copy |
| BundleUpload.CopyImagesSpec | pkg/airgapped/plugin_bundle_upload.go:61-76 | the two halves above together |
| BundleUpload.LoopSucceedsIff | pkg/airgapped/plugin_bundle_upload.go:65-73 | the loop succeeds exactly when every image uploads |
| BundleUpload.PublishSpec | pkg/airgapped/plugin_bundle_upload.go:80-106 | the metadata phase only downloads, merges and pushes; it pushes at most once and last, and the push sends the bundled database to the metadata image's joined URL; its failures are its own; after a merge failure nothing is pushed; on success it pushed |
| BundleUpload.RunAfterManifest | pkg/airgapped/plugin_bundle_upload.go:36-106 | once the manifest is loaded, the trace is the setup, the loop, the metadata phase if the loop succeeded, and the removal |
| BundleUpload.TempDirRemovedOnEveryPath | pkg/airgapped/plugin_bundle_upload.go:36-40 | after the directory is created, its removal is the last effect and happens only there; without it nothing else happens |
| BundleUpload.SetupFailureHasNoRemoteEffect | pkg/airgapped/plugin_bundle_upload.go:36-59 | the setup errors happen exactly when the directory or the manifest cannot be had, and then no registry effect happened and nothing was uploaded |
| BundleUpload.ImageLoopInRun | pkg/airgapped/plugin_bundle_upload.go:61-76 | the run's uploads are the loop's, right after the manifest read, and its count of uploaded images is the loop's |
| BundleUpload.UploadFailureEndsRun | pkg/airgapped/plugin_bundle_upload.go:67-73 | a failed image upload ends the run with that error, before every image was uploaded and before any download, merge or push |
| BundleUpload.DownloadFailureIsNotAnError | pkg/airgapped/plugin_bundle_upload.go:146-158 | when the download fails there is no merge and no merge error, the bundled database is still pushed, and the run succeeds iff the push and the final URL do |
| BundleUpload.MergeFailureBlocksPush | pkg/airgapped/plugin_bundle_upload.go:87-90 | the run ends with the merge error exactly when every image uploaded, the metadata URL joined, the download succeeded and the merge failed; then no push happened and a download was directly followed by the merge |
| BundleUpload.MetadataPushTarget | pkg/airgapped/plugin_bundle_upload.go:82-96 | every push of the run sends the bundled database file to the metadata image's URL, and a successful run makes exactly that push just before the removal |
| BundleUpload.PushIsSecondToLast | pkg/airgapped/plugin_bundle_upload.go:93-96 | a push can only be the effect just before the removal, and a successful run has it there |
| BundleUpload.PushOnceAfterUploads | pkg/airgapped/plugin_bundle_upload.go:82-96 | the metadata image is pushed at most once, only the removal follows it, and a successful run pushed it |
| BundleUpload.SuccessIff | pkg/airgapped/plugin_bundle_upload.go:34-107 | a run succeeds iff every step it depends on succeeds, and then it uploaded every image of the manifest |

## Left out

- `pkg/plugininventory/sqlite_inventory.go` is not part of this model. The aggregation policy is taken from the behaviour the test suite pins down. Entries come in order of first appearance. Description, publisher and vendor come from a plugin's first row. The recommended version is the first stored non-empty value, otherwise the highest version. The order of entries is not promised by the source; the fixture lemmas state the model's order.
- SQLite I/O, the SQL driver and the fixture DDL/DML: the table is a given sequence of rows, and a missing table is a store state.
- The Version, RecommendedVersion and Target columns are typed (`Version`, `Option<Version>`, `Target`). `Target` has only the global, kubernetes and mission-control values. The handling of a row whose version text does not parse, or whose target is another text, is not modelled.
- The `Hidden` column: nothing in the modelled code reads it.
- Semantic Versioning pre-release and build metadata: versions are `vMAJOR.MINOR.PATCH` triples.
- The filter target: the empty name matches every target, so the global target cannot be selected by a target filter on its own. This follows the rule that an empty filter field matches all values.
- `PluginInventory.StoredRecommendationWins`, `PluginInventory.StoredRecommendationSurvivesFilter`, `PluginInventory.LatestSelectsRecommended` and `PluginInventory.LatestResolvesToRecommended`: they require that the rows of the plugin concerned agree on the stored recommendation (`RecommendationAgreed`), as the fixture rows do; other plugins may disagree. With rows that disagree, the model reports the first stored value.
- `PluginInventory.GetAllPluginsMetadata` and `PluginInventory.GetPluginsMetadata`: they require that the rows of the plugin concerned agree on description, publisher and vendor (`MetadataAgreed`). Without that, the entry still carries those of the plugin's first row (`PluginInventory.PluginEntrySpec`).
- `PluginInventory.PluginLevelFilter`: it requires that every plugin's rows agree on publisher and vendor (`PublisherVendorAgreed`), because only then does a name, target, publisher or vendor filter keep or drop each plugin whole. Rows of a plugin may still differ in description or stored recommendation.
- `PluginInventory.HighestVersionRecommended`: it states that no available version exceeds the recommended one, not a literal maximum search over version strings.
- `time.Sleep` between uploads, logging, the TTY spinner and the `[total/count]` message texts.
- The missing-table error is the bare text `unable to setup DB` (`DB_SETUP_ERROR`). The test only checks that the error message contains that text; the message around it is not modelled.
- The error values name which step failed (`UploadError`). The texts they are wrapped with, such as `[total/count] error while uploading image "path"` for an image upload, and the wrapped cause are not modelled.
- `MergeInventoryMetadataDatabase`, `DownloadImageAndSaveFilesToDir`, `CopyImageFromTar`, `PushImage`, `JoinURL`, tar extraction and YAML parsing are oracles that succeed or fail. They are deterministic functions of their arguments. Merge internals are not modelled.
- `PluginBundleDirName`, `PluginMigrationManifestFile` and `SQliteInventoryMetadataDBFileName` are declared outside the modelled files, so they are fields of `Layout` and not fixed strings.
- `filepath.Join` cleaning: `JoinPath` is plain concatenation with `/`.
- `imagesUploaded` is local to the Go function. The model returns it in `Report` so that its value can be stated.
- The temporary directory's removal is modelled on the paths that return. The model has no panics, so a panic out of a collaborator is not modelled.
- `test/e2e/framework/output_handling.go` holds plain data types for test output and is not part of this model.
