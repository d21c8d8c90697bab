/**
  The scenarios of the inventory's unit tests, stated on the model.

  The two-plugin table holds management-cluster for Kubernetes (v0.28.0 for linux
  and darwin, v0.26.0 for windows, all recommending v0.28.0) and isolated-cluster
  (global, v1.2.3). The mission-control table holds management-cluster at v0.0.1
  and v0.0.2 with no stored recommendation. `root` is the repository root images
  are reported under.
*/
module InventoryFixtures {
  import opened Wrappers
  import opened Semver
  import opened PluginInventory

  const V0_26_0: Version := Version(0, 26, 0)
  const V0_28_0: Version := Version(0, 28, 0)
  const V1_2_3: Version := Version(1, 2, 3)
  const V0_0_1: Version := Version(0, 0, 1)
  const V0_0_2: Version := Version(0, 0, 2)

  const MANAGEMENT_CLUSTER: string := "management-cluster"
  const ISOLATED_CLUSTER: string := "isolated-cluster"
  const K8S_ENTRY_DESCRIPTION: string := "Kubernetes management cluster operations"

  function K8sRow(version: Version, os: string, digest: string, uri: string): Row {
    Row(MANAGEMENT_CLUSTER, Kubernetes, Some(V0_28_0), version,
        K8S_ENTRY_DESCRIPTION, "tkg", "vmware", os, "amd64", digest, uri)
  }

  const K8S_LINUX: Row := K8sRow(V0_28_0, "linux", "0000000000", "vmware/tkg/linux/amd64/k8s/management-cluster:v0.28.0")
  const K8S_DARWIN: Row := K8sRow(V0_28_0, "darwin", "1111111111", "vmware/tkg/darwin/amd64/k8s/management-cluster:v0.28.0")
  const K8S_WINDOWS: Row := K8sRow(V0_26_0, "windows", "2222222222", "vmware/tkg/windows/amd64/k8s/management-cluster:v0.26.0")
  const ISOLATED: Row :=
    Row(ISOLATED_CLUSTER, Global, Some(V1_2_3), V1_2_3, "Isolated cluster plugin", "otherpublisher", "othervendor",
        "linux", "amd64", "3333333333", "othervendor/otherpublisher/linux/amd64/global/isolated-cluster:v1.2.3")

  const TWO_PLUGINS: seq<Row> := [K8S_LINUX, K8S_DARWIN, K8S_WINDOWS, ISOLATED]

  function TmcRow(version: Version, digest: string, uri: string): Row {
    Row(MANAGEMENT_CLUSTER, MissionControl, None, version,
        "Mission-control management cluster operations", "tmc", "vmware", "linux", "amd64", digest, uri)
  }

  const TMC_ROWS: seq<Row> := [
    TmcRow(V0_0_1, "0000000000", "vmware/tmc/linux/amd64/tmc/management-cluster:v0.0.1"),
    TmcRow(V0_0_2, "1111111111", "vmware/tmc/linux/amd64/tmc/management-cluster:v0.0.2")]

  /** The stored target short names decode to the targets the tests expect. */
  lemma StoredTargets()
    ensures TargetOfStored("k8s") == Some(Kubernetes) && TargetName(Kubernetes) == "kubernetes"
    ensures TargetOfStored("global") == Some(Global) && TargetName(Global) == ""
    ensures TargetOfStored("tmc") == Some(MissionControl) && TargetName(MissionControl) == "mission-control"
  {
  }

  /** A store without the table: the query fails with the setup error. */
  lemma MissingTableScenario(root: string)
    ensures GetAllPlugins(MissingTable, root).Failure?
    ensures GetAllPlugins(MissingTable, root).error == "unable to setup DB"
  {
  }

  /** An empty table: no plugins and no error. */
  lemma EmptyTableScenario(root: string)
    ensures GetAllPlugins(Table([]), root) == Success([])
  {
  }

  lemma TwoPluginsKeys()
    ensures KeySet(TWO_PLUGINS) == {(MANAGEMENT_CLUSTER, Kubernetes), (ISOLATED_CLUSTER, Global)}
  {
    assert K8S_LINUX in TWO_PLUGINS && ISOLATED in TWO_PLUGINS;
    assert KeyOf(K8S_LINUX) == (MANAGEMENT_CLUSTER, Kubernetes);
    assert KeyOf(ISOLATED) == (ISOLATED_CLUSTER, Global);
  }

  /** Grouping a non-empty list decides its first row, then groups the rest. */
  lemma GroupFirst(r: Row, rest: seq<Row>, k: Key)
    ensures GroupRows([r] + rest, k) == (if KeyOf(r) == k then [r] else []) + GroupRows(rest, k)
  {
    assert ([r] + rest)[1..] == rest;
  }

  /** Grouping four rows, row by row. */
  lemma GroupOfFour(a: Row, b: Row, c: Row, d: Row, k: Key)
    ensures GroupRows([a, b, c, d], k) ==
      (if KeyOf(a) == k then [a] else []) +
      ((if KeyOf(b) == k then [b] else []) +
      ((if KeyOf(c) == k then [c] else []) +
      (if KeyOf(d) == k then [d] else [])))
  {
    assert [a, b, c, d] == [a] + ([b] + ([c] + ([d] + [])));
    GroupFirst(d, [], k);
    GroupFirst(c, [d] + [], k);
    GroupFirst(b, [c] + ([d] + []), k);
    GroupFirst(a, [b] + ([c] + ([d] + [])), k);
  }

  /** Three rows of one plugin followed by a row of another group as the three. */
  lemma GroupOfThreeThenOther(a: Row, b: Row, c: Row, d: Row, k: Key)
    requires KeyOf(a) == k && KeyOf(b) == k && KeyOf(c) == k && KeyOf(d) != k
    ensures GroupRows([a, b, c, d], k) == [a, b, c]
  {
    GroupOfFour(a, b, c, d, k);
  }

  lemma K8sGroup()
    ensures GroupRows(TWO_PLUGINS, (MANAGEMENT_CLUSTER, Kubernetes)) == [K8S_LINUX, K8S_DARWIN, K8S_WINDOWS]
  {
    GroupOfThreeThenOther(K8S_LINUX, K8S_DARWIN, K8S_WINDOWS, ISOLATED, (MANAGEMENT_CLUSTER, Kubernetes));
  }

  lemma IsolatedGroup()
    ensures GroupRows(TWO_PLUGINS, (ISOLATED_CLUSTER, Global)) == [ISOLATED]
  {
    GroupOfFour(K8S_LINUX, K8S_DARWIN, K8S_WINDOWS, ISOLATED, (ISOLATED_CLUSTER, Global));
  }

  lemma K8sVersions()
    ensures SortVersions(VersionsOf([K8S_LINUX, K8S_DARWIN, K8S_WINDOWS])) == [V0_26_0, V0_28_0]
  {
    var rs := [K8S_LINUX, K8S_DARWIN, K8S_WINDOWS];
    assert rs[1..] == [K8S_DARWIN, K8S_WINDOWS] && rs[1..][1..] == [K8S_WINDOWS] && rs[1..][1..][1..] == [];
    assert VersionsOf(rs[1..][1..]) == [V0_26_0];
    assert VersionsOf(rs[1..]) == [V0_28_0, V0_26_0];
    var vs := [V0_28_0, V0_28_0, V0_26_0];
    assert VersionsOf(rs) == vs;
    assert vs[1..] == [V0_28_0, V0_26_0] && vs[1..][1..] == [V0_26_0] && vs[1..][1..][1..] == [];
    assert SortVersions(vs[1..][1..]) == [V0_26_0];
    assert Insert(V0_28_0, [V0_26_0]) == [V0_26_0, V0_28_0];
    assert SortVersions(vs[1..]) == [V0_26_0, V0_28_0];
    assert Insert(V0_28_0, [V0_26_0, V0_28_0]) == [V0_26_0, V0_28_0];
  }

  lemma K8sArtifacts(root: string)
    ensures ArtifactsAt([K8S_LINUX, K8S_DARWIN, K8S_WINDOWS], V0_26_0, root) == [ArtifactOf(K8S_WINDOWS, root)]
    ensures ArtifactsAt([K8S_LINUX, K8S_DARWIN, K8S_WINDOWS], V0_28_0, root) ==
      [ArtifactOf(K8S_LINUX, root), ArtifactOf(K8S_DARWIN, root)]
  {
    var rs := [K8S_LINUX, K8S_DARWIN, K8S_WINDOWS];
    assert rs[1..] == [K8S_DARWIN, K8S_WINDOWS] && rs[1..][1..] == [K8S_WINDOWS] && rs[1..][1..][1..] == [];
    assert ArtifactsAt(rs[1..][1..], V0_26_0, root) == [ArtifactOf(K8S_WINDOWS, root)];
    assert ArtifactsAt(rs[1..], V0_26_0, root) == [ArtifactOf(K8S_WINDOWS, root)];
    assert ArtifactsAt(rs[1..][1..], V0_28_0, root) == [];
    assert ArtifactsAt(rs[1..], V0_28_0, root) == [ArtifactOf(K8S_DARWIN, root)];
  }

  /** The artifact map of an entry whose rows hold exactly two versions. */
  lemma TwoVersionEntry(rs: seq<Row>, root: string, v1: Version, v2: Version)
    requires rs != [] && SortVersions(VersionsOf(rs)) == [v1, v2]
    ensures MakeEntry(rs, root).availableVersions == [v1, v2]
    ensures MakeEntry(rs, root).artifacts == map[v1 := ArtifactsAt(rs, v1, root), v2 := ArtifactsAt(rs, v2, root)]
  {
    TwoKeyArtifacts(rs, root, v1, v2);
  }

  lemma TwoKeyArtifacts(rs: seq<Row>, root: string, v1: Version, v2: Version)
    ensures (map v | v in [v1, v2] :: ArtifactsAt(rs, v, root)) ==
      map[v1 := ArtifactsAt(rs, v1, root), v2 := ArtifactsAt(rs, v2, root)]
  {
    var arts := map v | v in [v1, v2] :: ArtifactsAt(rs, v, root);
    TwoKeyMap(arts, v1, v2);
  }

  lemma TwoKeyMap(m: map<Version, seq<Artifact>>, v1: Version, v2: Version)
    requires m.Keys == {v1, v2}
    ensures m == map[v1 := m[v1], v2 := m[v2]]
  {
  }

  /** The entry of management-cluster for Kubernetes. */
  lemma K8sEntry(root: string)
    ensures MakeEntry([K8S_LINUX, K8S_DARWIN, K8S_WINDOWS], root) ==
      Entry(MANAGEMENT_CLUSTER, Kubernetes, K8S_ENTRY_DESCRIPTION, "tkg", "vmware",
            V0_28_0, [V0_26_0, V0_28_0],
            map[V0_26_0 := [ArtifactOf(K8S_WINDOWS, root)],
                V0_28_0 := [ArtifactOf(K8S_LINUX, root), ArtifactOf(K8S_DARWIN, root)]])
  {
    K8sVersions();
    TwoVersionEntry([K8S_LINUX, K8S_DARWIN, K8S_WINDOWS], root, V0_26_0, V0_28_0);
    K8sArtifacts(root);
    K8sRecommended();
  }

  lemma {:induction false} WholeGroup(rs: seq<Row>, k: Key)
    requires forall r | r in rs :: KeyOf(r) == k
    ensures GroupRows(rs, k) == rs
    decreases |rs|
  {
    if rs != [] {
      WholeGroup(rs[1..], k);
      assert rs == [rs[0]] + rs[1..];
    }
  }

  /** A table holding a single plugin aggregates to that plugin's entry alone. */
  lemma SinglePluginAggregate(rs: seq<Row>, root: string)
    requires rs != []
    requires forall r | r in rs :: KeyOf(r) == KeyOf(rs[0])
    ensures Aggregate(rs, root) == [MakeEntry(rs, root)]
  {
    var k := KeyOf(rs[0]);
    assert KeySet(rs) == {k};
    EntryCount(rs, root);
    var es := Aggregate(rs, root);
    assert es[0] in es;
    AggregateEntryIsMade(rs, root, es[0]);
    WholeGroup(rs, k);
  }

  /** No rows, no entries. */
  lemma EmptyAggregate(root: string)
    ensures Aggregate([], root) == []
  {
    EntryCount([], root);
  }

  lemma IsolatedEntry(root: string)
    ensures MakeEntry([ISOLATED], root) ==
      Entry(ISOLATED_CLUSTER, Global, "Isolated cluster plugin", "otherpublisher", "othervendor",
            V1_2_3, [V1_2_3], map[V1_2_3 := [ArtifactOf(ISOLATED, root)]])
  {
    assert VersionsOf([ISOLATED]) == [V1_2_3];
    assert SortVersions([V1_2_3]) == [V1_2_3];
    assert ArtifactsAt([ISOLATED], V1_2_3, root) == [ArtifactOf(ISOLATED, root)];
  }

  lemma TwoPluginsRowKeys()
    ensures RowKeys(TWO_PLUGINS) == [(MANAGEMENT_CLUSTER, Kubernetes), (ISOLATED_CLUSTER, Global)]
  {
    var rows := TWO_PLUGINS;
    assert rows[..3][..2][..1][..0] == [];
    assert RowKeys(rows[..3][..2][..1]) == [(MANAGEMENT_CLUSTER, Kubernetes)];
    assert RowKeys(rows[..3][..2]) == [(MANAGEMENT_CLUSTER, Kubernetes)];
    assert RowKeys(rows[..3]) == [(MANAGEMENT_CLUSTER, Kubernetes)];
  }

  /** GetAllPlugins on the two-plugin table: management-cluster for Kubernetes with
      v0.26.0 and v0.28.0 recommending v0.28.0, then isolated-cluster at v1.2.3. */
  lemma TwoPluginsScenario(root: string)
    ensures GetAllPlugins(Table(TWO_PLUGINS), root) == Success([
      Entry(MANAGEMENT_CLUSTER, Kubernetes, K8S_ENTRY_DESCRIPTION, "tkg", "vmware",
            V0_28_0, [V0_26_0, V0_28_0],
            map[V0_26_0 := [Artifact("windows", "amd64", "2222222222", ArtifactOf(K8S_WINDOWS, root).image)],
                V0_28_0 := [Artifact("linux", "amd64", "0000000000", ArtifactOf(K8S_LINUX, root).image),
                            Artifact("darwin", "amd64", "1111111111", ArtifactOf(K8S_DARWIN, root).image)]]),
      Entry(ISOLATED_CLUSTER, Global, "Isolated cluster plugin", "otherpublisher", "othervendor",
            V1_2_3, [V1_2_3], map[V1_2_3 := [Artifact("linux", "amd64", "3333333333", ArtifactOf(ISOLATED, root).image)]])])
  {
    TwoPluginsAggregate(root);
    K8sEntry(root);
    IsolatedEntry(root);
  }

  lemma TwoPluginsAggregate(root: string)
    ensures Aggregate(TWO_PLUGINS, root) ==
      [MakeEntry([K8S_LINUX, K8S_DARWIN, K8S_WINDOWS], root), MakeEntry([ISOLATED], root)]
  {
    TwoPluginsRowKeys();
    K8sGroup();
    IsolatedGroup();
  }

  /** The textual forms the tests compare with. */
  lemma FixtureVersionNames()
    ensures Format(V0_28_0) == "v0.28.0" && Format(V0_26_0) == "v0.26.0"
    ensures Format(V1_2_3) == "v1.2.3" && Format(V0_0_2) == "v0.0.2"
  {
    assert NatToString(28) == "28" by {
      assert NatToString(2) == "2" && NatToString(8) == "8";
    }
    assert NatToString(26) == "26" by {
      assert NatToString(2) == "2" && NatToString(6) == "6";
    }
  }

  /** The entry made from a single row. */
  lemma SingleRowEntry(r: Row, root: string)
    ensures MakeEntry([r], root) ==
      Entry(r.pluginName, r.target, r.description, r.publisher, r.vendor,
            if r.recommendedVersion.Some? then r.recommendedVersion.value else r.version,
            [r.version], map[r.version := [ArtifactOf(r, root)]])
  {
    assert VersionsOf([r]) == [r.version];
    assert SortVersions([r.version]) == [r.version];
    assert ArtifactsAt([r], r.version, root) == [ArtifactOf(r, root)];
    assert StoredRecommended([r]) == r.recommendedVersion;
  }

  const EXACT_VERSION_FILTER: Filter := Filter(MANAGEMENT_CLUSTER, "kubernetes", "v0.26.0", "windows", "amd64", "", "")

  /** A name, target, version, OS and architecture filter: one plugin with the one
      matching artifact, still recommending the stored v0.28.0. */
  lemma ExactVersionScenario(root: string)
    ensures GetPlugins(Table(TWO_PLUGINS), EXACT_VERSION_FILTER, root) == Success([
      Entry(MANAGEMENT_CLUSTER, Kubernetes, K8S_ENTRY_DESCRIPTION, "tkg", "vmware",
            V0_28_0, [V0_26_0],
            map[V0_26_0 := [Artifact("windows", "amd64", "2222222222", ArtifactOf(K8S_WINDOWS, root).image)]])])
  {
    ExactSelection();
    SinglePluginAggregate([K8S_WINDOWS], root);
    SingleRowEntry(K8S_WINDOWS, root);
  }

  lemma SelectFourRows(f: Filter, a: Row, b: Row, c: Row, d: Row)
    ensures SelectRows(f, [a, b, c, d]) == Kept(f, a) + (Kept(f, b) + (Kept(f, c) + Kept(f, d)))
  {
    assert [a, b, c, d] == [a] + [b, c, d] && [b, c, d] == [b] + [c, d] && [c, d] == [c] + [d] && [d] == [d] + [];
    SelectFirst(f, d, []);
    SelectFirst(f, c, [d]);
    SelectFirst(f, b, [c, d]);
    SelectFirst(f, a, [b, c, d]);
  }

  lemma ExactSelection()
    ensures Selection(TWO_PLUGINS, EXACT_VERSION_FILTER) == [K8S_WINDOWS]
  {
    FixtureVersionNames();
    assert !RowMatches(EXACT_VERSION_FILTER, K8S_LINUX);
    assert !RowMatches(EXACT_VERSION_FILTER, K8S_DARWIN);
    assert RowMatches(EXACT_VERSION_FILTER, K8S_WINDOWS);
    assert !RowMatches(EXACT_VERSION_FILTER, ISOLATED);
    SelectFourRows(EXACT_VERSION_FILTER, K8S_LINUX, K8S_DARWIN, K8S_WINDOWS, ISOLATED);
  }

  const LATEST_FILTER: Filter := Filter(MANAGEMENT_CLUSTER, "kubernetes", VERSION_LATEST, "darwin", "amd64", "", "")

  /** "latest" for darwin: the darwin artifact of the recommended v0.28.0 alone. */
  lemma LatestScenario(root: string)
    ensures GetPlugins(Table(TWO_PLUGINS), LATEST_FILTER, root) == Success([
      Entry(MANAGEMENT_CLUSTER, Kubernetes, K8S_ENTRY_DESCRIPTION, "tkg", "vmware",
            V0_28_0, [V0_28_0],
            map[V0_28_0 := [Artifact("darwin", "amd64", "1111111111", ArtifactOf(K8S_DARWIN, root).image)]])])
  {
    LatestSelection();
    SinglePluginAggregate([K8S_DARWIN], root);
    SingleRowEntry(K8S_DARWIN, root);
  }

  lemma K8sRecommended()
    ensures RecommendedVersion([K8S_LINUX, K8S_DARWIN, K8S_WINDOWS]) == V0_28_0
  {
    assert StoredRecommended([K8S_LINUX, K8S_DARWIN, K8S_WINDOWS]) == Some(V0_28_0);
  }

  /** The darwin row of v0.28.0 is at the recommended version of its plugin. */
  lemma DarwinIsRecommended()
    ensures AtRecommendedVersion(TWO_PLUGINS, K8S_DARWIN)
  {
    assert KeyOf(K8S_DARWIN) == (MANAGEMENT_CLUSTER, Kubernetes);
    K8sGroup();
    K8sRecommended();
  }

  /** Of the table, only the darwin row matches the fields of the "latest" filter. */
  lemma LatestFieldSelection()
    ensures SelectRows(LATEST_FILTER, TWO_PLUGINS) == [K8S_DARWIN]
  {
    assert RowMatches(LATEST_FILTER, K8S_DARWIN);
    assert !FieldMatches(LATEST_FILTER.os, K8S_LINUX.os);
    assert !FieldMatches(LATEST_FILTER.os, K8S_WINDOWS.os);
    assert !FieldMatches(LATEST_FILTER.name, ISOLATED.pluginName);
    SelectFourRows(LATEST_FILTER, K8S_LINUX, K8S_DARWIN, K8S_WINDOWS, ISOLATED);
  }

  lemma LatestSelection()
    ensures Selection(TWO_PLUGINS, LATEST_FILTER) == [K8S_DARWIN]
  {
    LatestFieldSelection();
    DarwinIsRecommended();
    assert [K8S_DARWIN][1..] == [];
    assert LatestRows(TWO_PLUGINS, [K8S_DARWIN]) == [K8S_DARWIN];
  }

  const VENDOR_FILTER: Filter := EMPTY_FILTER.(vendor := "vmware")
  const PUBLISHER_FILTER: Filter := EMPTY_FILTER.(publisher := "otherpublisher")

  lemma VendorSelection()
    ensures Selection(TWO_PLUGINS, VENDOR_FILTER) == [K8S_LINUX, K8S_DARWIN, K8S_WINDOWS]
  {
    assert Kept(VENDOR_FILTER, K8S_LINUX) == [K8S_LINUX];
    assert Kept(VENDOR_FILTER, K8S_DARWIN) == [K8S_DARWIN];
    assert Kept(VENDOR_FILTER, K8S_WINDOWS) == [K8S_WINDOWS];
    assert Kept(VENDOR_FILTER, ISOLATED) == [];
    SelectFourRows(VENDOR_FILTER, K8S_LINUX, K8S_DARWIN, K8S_WINDOWS, ISOLATED);
  }

  /** Filtering by vendor keeps management-cluster whole, with both versions. */
  lemma VendorScenario(root: string)
    ensures GetPlugins(Table(TWO_PLUGINS), VENDOR_FILTER, root) == Success([
      Entry(MANAGEMENT_CLUSTER, Kubernetes, K8S_ENTRY_DESCRIPTION, "tkg", "vmware",
            V0_28_0, [V0_26_0, V0_28_0],
            map[V0_26_0 := [Artifact("windows", "amd64", "2222222222", ArtifactOf(K8S_WINDOWS, root).image)],
                V0_28_0 := [Artifact("linux", "amd64", "0000000000", ArtifactOf(K8S_LINUX, root).image),
                            Artifact("darwin", "amd64", "1111111111", ArtifactOf(K8S_DARWIN, root).image)]])])
  {
    VendorSelection();
    SinglePluginAggregate([K8S_LINUX, K8S_DARWIN, K8S_WINDOWS], root);
    K8sEntry(root);
  }

  lemma PublisherSelection()
    ensures Selection(TWO_PLUGINS, PUBLISHER_FILTER) == [ISOLATED]
  {
    assert !RowMatches(PUBLISHER_FILTER, K8S_LINUX);
    SelectFourRows(PUBLISHER_FILTER, K8S_LINUX, K8S_DARWIN, K8S_WINDOWS, ISOLATED);
  }

  /** Filtering by publisher keeps isolated-cluster alone. */
  lemma PublisherScenario(root: string)
    ensures GetPlugins(Table(TWO_PLUGINS), PUBLISHER_FILTER, root) == Success([
      Entry(ISOLATED_CLUSTER, Global, "Isolated cluster plugin", "otherpublisher", "othervendor",
            V1_2_3, [V1_2_3], map[V1_2_3 := [Artifact("linux", "amd64", "3333333333", ArtifactOf(ISOLATED, root).image)]])])
  {
    PublisherSelection();
    SinglePluginAggregate([ISOLATED], root);
    IsolatedEntry(root);
  }

  lemma TmcEntry(root: string)
    ensures MakeEntry(TMC_ROWS, root) ==
      Entry(MANAGEMENT_CLUSTER, MissionControl, "Mission-control management cluster operations", "tmc", "vmware",
            V0_0_2, [V0_0_1, V0_0_2],
            map[V0_0_1 := [ArtifactOf(TMC_ROWS[0], root)], V0_0_2 := [ArtifactOf(TMC_ROWS[1], root)]])
  {
    var rs := TMC_ROWS;
    assert rs[1..] == [rs[1]] && rs[1..][1..] == [];
    assert VersionsOf(rs[1..]) == [V0_0_2];
    assert VersionsOf(rs) == [V0_0_1, V0_0_2];
    assert SortVersions([V0_0_2]) == [V0_0_2];
    assert SortVersions([V0_0_1, V0_0_2]) == [V0_0_1, V0_0_2];
    TwoVersionEntry(rs, root, V0_0_1, V0_0_2);
    assert StoredRecommended(rs) == None;
    assert ArtifactsAt(rs, V0_0_1, root) == [ArtifactOf(rs[0], root)];
    assert ArtifactsAt(rs, V0_0_2, root) == [ArtifactOf(rs[1], root)];
  }

  /** Without a stored recommendation the highest version, v0.0.2, is recommended. */
  lemma MissionControlScenario(root: string)
    ensures GetAllPlugins(Table(TMC_ROWS), root) == Success([
      Entry(MANAGEMENT_CLUSTER, MissionControl, "Mission-control management cluster operations", "tmc", "vmware",
            V0_0_2, [V0_0_1, V0_0_2],
            map[V0_0_1 := [Artifact("linux", "amd64", "0000000000", ArtifactOf(TMC_ROWS[0], root).image)],
                V0_0_2 := [Artifact("linux", "amd64", "1111111111", ArtifactOf(TMC_ROWS[1], root).image)]])])
  {
    SinglePluginAggregate(TMC_ROWS, root);
    TmcEntry(root);
  }

  const MISSING_VERSION_FILTER: Filter := Filter(MANAGEMENT_CLUSTER, "mission-control", "v1.2.3", "windows", "amd64", "", "")

  /** A version that does not exist gives an empty list and no error. */
  lemma NoMatchScenario(root: string)
    ensures GetPlugins(Table(TMC_ROWS), MISSING_VERSION_FILTER, root) == Success([])
  {
    var rs := TMC_ROWS;
    assert rs[1..] == [rs[1]] && rs[1..][1..] == [];
    assert !RowMatches(MISSING_VERSION_FILTER, rs[0]) && !RowMatches(MISSING_VERSION_FILTER, rs[1]);
    assert SelectRows(MISSING_VERSION_FILTER, rs[1..]) == [];
    assert Selection(rs, MISSING_VERSION_FILTER) == [];
    EmptyAggregate(root);
  }
}
