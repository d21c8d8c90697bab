/**
  The plugin inventory store and its two read queries.

  The store is the single table PluginBinaries: one row per (PluginName, Target,
  Version, OS, Architecture). GetAllPlugins and GetPlugins read the rows, keep those
  that pass a filter, and group them into one PluginInventoryEntry per
  (PluginName, Target): the entry lists its versions in ascending precedence order,
  maps each version to the artifacts (one per row) built at that version, and names
  a recommended version.
*/
module PluginInventory {
  import opened Wrappers
  import opened Semver

  // ---------------------------------------------------------------------------
  // Targets

  datatype Target = Global | Kubernetes | MissionControl

  /** The target name an entry reports and a filter is written with. */
  function TargetName(t: Target): string {
    match t
    case Global => ""
    case Kubernetes => "kubernetes"
    case MissionControl => "mission-control"
  }

  /** The short name the Target column stores. */
  function StoredTargetName(t: Target): string {
    match t
    case Global => "global"
    case Kubernetes => "k8s"
    case MissionControl => "tmc"
  }

  /** Reads the Target column. */
  function TargetOfStored(s: string): (r: Option<Target>)
    ensures forall t :: r == Some(t) <==> StoredTargetName(t) == s
  {
    if s == "global" then Some(Global)
    else if s == "k8s" then Some(Kubernetes)
    else if s == "tmc" then Some(MissionControl)
    else None
  }

  // ---------------------------------------------------------------------------
  // Rows and entries

  /** One row of PluginBinaries. The Version column holds a version; the
      RecommendedVersion column holds a version or '' (here `None`). */
  datatype Row = Row(
    pluginName: string,
    target: Target,
    recommendedVersion: Option<Version>,
    version: Version,
    description: string,
    publisher: string,
    vendor: string,
    os: string,
    architecture: string,
    digest: string,
    uri: string)

  /** What identifies a plugin: its name and its target. */
  type Key = (string, Target)

  function KeyOf(r: Row): Key {
    (r.pluginName, r.target)
  }

  function KeySet(rows: seq<Row>): set<Key> {
    set r | r in rows :: KeyOf(r)
  }

  /** The rows of the plugin `k` agree on its description, publisher and vendor. */
  predicate MetadataAgreed(rows: seq<Row>, k: Key) {
    forall r1, r2 | r1 in rows && r2 in rows && KeyOf(r1) == k && KeyOf(r2) == k ::
      r1.description == r2.description && r1.publisher == r2.publisher && r1.vendor == r2.vendor
  }

  /** The rows of the plugin `k` agree on its stored recommended version. */
  predicate RecommendationAgreed(rows: seq<Row>, k: Key) {
    forall r1, r2 | r1 in rows && r2 in rows && KeyOf(r1) == k && KeyOf(r2) == k ::
      r1.recommendedVersion == r2.recommendedVersion
  }

  /** The rows of every plugin agree on its publisher and vendor. */
  predicate PublisherVendorAgreed(rows: seq<Row>) {
    forall r1, r2 | r1 in rows && r2 in rows && KeyOf(r1) == KeyOf(r2) ::
      r1.publisher == r2.publisher && r1.vendor == r2.vendor
  }

  datatype Artifact = Artifact(os: string, arch: string, digest: string, image: string)

  datatype Entry = Entry(
    name: string,
    target: Target,
    description: string,
    publisher: string,
    vendor: string,
    recommendedVersion: Version,
    availableVersions: seq<Version>,
    artifacts: map<Version, seq<Artifact>>)

  function EntryKey(e: Entry): Key {
    (e.name, e.target)
  }

  /** The invariants of a PluginInventoryEntry: available versions ascending and
      without repetition, and an artifact list for exactly the available versions. */
  predicate ValidEntry(e: Entry) {
    && StrictlySorted(e.availableVersions)
    && (forall v | v in e.artifacts :: v in e.availableVersions)
    && (forall v | v in e.availableVersions :: v in e.artifacts)
    && (forall v | v in e.artifacts :: e.artifacts[v] != [])
  }

  /** A row's artifact; its image is the row's URI under the repository root. */
  function ArtifactOf(r: Row, root: string): (a: Artifact)
    ensures a.os == r.os && a.arch == r.architecture && a.digest == r.digest
    ensures |a.image| == |root| + 1 + |r.uri|
    ensures a.image[..|root|] == root && a.image[|root|] == '/' && a.image[|root| + 1..] == r.uri
  {
    Artifact(r.os, r.architecture, r.digest, root + "/" + r.uri)
  }

  // ---------------------------------------------------------------------------
  // Grouping

  /** The rows of one plugin, in table order. */
  function GroupRows(rows: seq<Row>, k: Key): (g: seq<Row>)
    ensures forall r :: r in g <==> r in rows && KeyOf(r) == k
    ensures g != [] <==> k in KeySet(rows)
    decreases |rows|
  {
    if rows == [] then []
    else if KeyOf(rows[0]) == k then [rows[0]] + GroupRows(rows[1..], k)
    else
      GroupRows(rows[1..], k)
  }

  /** The first row of a plugin's group is the plugin's earliest row in the table. */
  lemma {:induction false} GroupHeadIsEarliest(rows: seq<Row>, k: Key) returns (i: nat)
    requires GroupRows(rows, k) != []
    ensures i < |rows| && rows[i] == GroupRows(rows, k)[0]
    ensures forall j | 0 <= j < i :: KeyOf(rows[j]) != k
    decreases |rows|
  {
    if KeyOf(rows[0]) == k {
      i := 0;
    } else {
      var i' := GroupHeadIsEarliest(rows[1..], k);
      i := i' + 1;
      assert forall j | 0 < j < i :: rows[j] == rows[1..][j - 1];
    }
  }

  /** The plugins of the table, each once, in order of first appearance. */
  function RowKeys(rows: seq<Row>): (ks: seq<Key>)
    ensures forall k :: k in ks <==> k in KeySet(rows)
    ensures forall i, j | 0 <= i < j < |ks| :: ks[i] != ks[j]
    decreases |rows|
  {
    if rows == [] then []
    else
      var init := rows[..|rows| - 1];
      assert rows == init + [rows[|rows| - 1]];
      assert KeySet(rows) == KeySet(init) + {KeyOf(rows[|rows| - 1])};
      var ks := RowKeys(init);
      var k := KeyOf(rows[|rows| - 1]);
      if k in ks then ks else ks + [k]
  }

  /** The versions of `rs`, in row order. */
  function VersionsOf(rs: seq<Row>): (vs: seq<Version>)
    ensures forall v :: v in vs <==> exists r :: r in rs && r.version == v
    decreases |rs|
  {
    if rs == [] then [] else [rs[0].version] + VersionsOf(rs[1..])
  }

  /** The first non-empty RecommendedVersion stored among `rs`. */
  function StoredRecommended(rs: seq<Row>): (s: Option<Version>)
    ensures s.Some? <==> exists r :: r in rs && r.recommendedVersion.Some?
    ensures s.Some? ==> exists r :: r in rs && r.recommendedVersion == s
    decreases |rs|
  {
    if rs == [] then None
    else if rs[0].recommendedVersion.Some? then rs[0].recommendedVersion
    else StoredRecommended(rs[1..])
  }

  /** A stored non-empty recommended version wins; otherwise the highest version. */
  function RecommendedVersion(rs: seq<Row>): (v: Version)
    requires rs != []
    ensures StoredRecommended(rs).Some? ==> v == StoredRecommended(rs).value
    ensures StoredRecommended(rs).None? ==>
      && (exists r :: r in rs && r.version == v)
      && (forall r | r in rs :: r.version == v || Less(r.version, v))
  {
    match StoredRecommended(rs)
    case Some(stored) => stored
    case None =>
      var available := SortVersions(VersionsOf(rs));
      assert rs[0].version in VersionsOf(rs);
      var top := available[|available| - 1];
      assert top in available && top in VersionsOf(rs);
      SortedLastIsGreatest(available);
      assert forall r | r in rs :: r.version in VersionsOf(rs) && r.version in available;
      top
  }

  /** The artifacts of the rows of `rs` at version `v`, in row order. */
  /** How many of the rows `rs` are at version `v`. */
  function RowsAt(rs: seq<Row>, v: Version): (n: nat)
    ensures n <= |rs|
    decreases |rs|
  {
    if rs == [] then 0
    else (if rs[0].version == v then 1 else 0) + RowsAt(rs[1..], v)
  }

  function ArtifactsAt(rs: seq<Row>, v: Version, root: string): (arts: seq<Artifact>)
    ensures forall a :: a in arts <==> exists r :: r in rs && r.version == v && ArtifactOf(r, root) == a
    ensures |arts| == RowsAt(rs, v)
    ensures |arts| <= |rs|
    decreases |rs|
  {
    if rs == [] then []
    else if rs[0].version == v then [ArtifactOf(rs[0], root)] + ArtifactsAt(rs[1..], v, root)
    else ArtifactsAt(rs[1..], v, root)
  }

  /** The entry for the rows `rs` of one plugin. Name, target, description,
      publisher and vendor come from the first row. */
  function MakeEntry(rs: seq<Row>, root: string): (e: Entry)
    requires rs != []
    ensures EntryKey(e) == KeyOf(rs[0])
  {
    var available := SortVersions(VersionsOf(rs));
    Entry(rs[0].pluginName, rs[0].target, rs[0].description, rs[0].publisher, rs[0].vendor,
          RecommendedVersion(rs), available, map v | v in available :: ArtifactsAt(rs, v, root))
  }

  /** `e` lists exactly the versions of the rows `rs`, and exactly their artifacts,
      each under its own version, one artifact per row. */
  ghost predicate DescribesRows(rs: seq<Row>, root: string, e: Entry) {
    && ValidEntry(e)
    && (forall v :: v in e.availableVersions <==> exists r :: r in rs && r.version == v)
    && (forall v, a | v in e.artifacts && a in e.artifacts[v] ::
          exists r :: r in rs && r.version == v && ArtifactOf(r, root) == a)
    && (forall r | r in rs :: r.version in e.artifacts && ArtifactOf(r, root) in e.artifacts[r.version])
    && (forall v | v in e.artifacts :: |e.artifacts[v]| == RowsAt(rs, v))
  }

  /** `e` takes its description, publisher and vendor from the first of the rows
      `rs`, and recommends their RecommendedVersion: the version stored on them or,
      without one, the highest of their versions. */
  ghost predicate HeaderFrom(rs: seq<Row>, e: Entry) {
    && rs != []
    && e.description == rs[0].description
    && e.publisher == rs[0].publisher
    && e.vendor == rs[0].vendor
    && e.recommendedVersion == RecommendedVersion(rs)
  }

  /** What an entry built from the rows `rs` of one plugin holds. */
  lemma MakeEntrySpec(rs: seq<Row>, root: string)
    requires rs != []
    ensures var e := MakeEntry(rs, root);
      && DescribesRows(rs, root, e)
      && HeaderFrom(rs, e)
      && (StoredRecommended(rs).Some? ==> e.recommendedVersion == StoredRecommended(rs).value)
      && (StoredRecommended(rs).None? ==>
            && e.recommendedVersion in e.availableVersions
            && (forall v | v in e.availableVersions :: v == e.recommendedVersion || Less(v, e.recommendedVersion)))
  {
    var e := MakeEntry(rs, root);
    var available := SortVersions(VersionsOf(rs));
    assert e.availableVersions == available;
    assert forall v :: v in available <==> exists r :: r in rs && r.version == v;
    forall v | v in e.artifacts
      ensures e.artifacts[v] != []
    {
      var r :| r in rs && r.version == v;
      assert ArtifactOf(r, root) in e.artifacts[v];
    }
    forall r | r in rs
      ensures r.version in e.artifacts && ArtifactOf(r, root) in e.artifacts[r.version]
    {
      assert r.version in VersionsOf(rs);
    }
    assert ValidEntry(e);
    assert DescribesRows(rs, root, e);
  }

  function Entries(rows: seq<Row>, ks: seq<Key>, root: string): (es: seq<Entry>)
    requires forall k | k in ks :: k in KeySet(rows)
    ensures |es| == |ks|
    ensures forall i | 0 <= i < |ks| :: GroupRows(rows, ks[i]) != [] && es[i] == MakeEntry(GroupRows(rows, ks[i]), root)
    decreases |ks|
  {
    if ks == [] then []
    else
      var rest := Entries(rows, ks[1..], root);
      assert forall i | 1 <= i < |ks| :: ks[i] == ks[1..][i - 1];
      [MakeEntry(GroupRows(rows, ks[0]), root)] + rest
  }

  lemma EntriesCoverKeys(rows: seq<Row>, ks: seq<Key>, root: string, es: seq<Entry>)
    requires forall k :: k in ks <==> k in KeySet(rows)
    requires forall i, j | 0 <= i < j < |ks| :: ks[i] != ks[j]
    requires es == Entries(rows, ks, root)
    ensures forall k | k in KeySet(rows) :: exists i :: 0 <= i < |es| && EntryKey(es[i]) == k
    ensures forall i, j | 0 <= i < j < |es| :: EntryKey(es[i]) != EntryKey(es[j])
  {
    assert forall i | 0 <= i < |es| :: EntryKey(es[i]) == ks[i];
    forall k | k in KeySet(rows)
      ensures exists i :: 0 <= i < |es| && EntryKey(es[i]) == k
    {
      var i := IndexOf(ks, k);
      assert EntryKey(es[i]) == k;
    }
  }

  lemma EntriesFromGroups(rows: seq<Row>, ks: seq<Key>, root: string, es: seq<Entry>)
    requires forall k :: k in ks <==> k in KeySet(rows)
    requires es == Entries(rows, ks, root)
    ensures forall i | 0 <= i < |es| :: EntryKey(es[i]) in KeySet(rows) && GroupRows(rows, EntryKey(es[i])) != []
    ensures forall i | 0 <= i < |es| :: es[i] == MakeEntry(GroupRows(rows, EntryKey(es[i])), root)
  {
    forall i | 0 <= i < |es|
      ensures EntryKey(es[i]) == ks[i]
    {
    }
  }

  /** One entry per distinct (PluginName, Target) of `rows`, built from that plugin's rows. */
  function Aggregate(rows: seq<Row>, root: string): (es: seq<Entry>)
    ensures forall i | 0 <= i < |es| :: EntryKey(es[i]) in KeySet(rows) && GroupRows(rows, EntryKey(es[i])) != []
    ensures forall i | 0 <= i < |es| :: es[i] == MakeEntry(GroupRows(rows, EntryKey(es[i])), root)
    ensures forall k | k in KeySet(rows) :: exists i :: 0 <= i < |es| && EntryKey(es[i]) == k
    ensures forall i, j | 0 <= i < j < |es| :: EntryKey(es[i]) != EntryKey(es[j])
  {
    var ks := RowKeys(rows);
    var es := Entries(rows, ks, root);
    EntriesCoverKeys(rows, ks, root, es);
    EntriesFromGroups(rows, ks, root, es);
    es
  }

  function IndexOf<T(==)>(s: seq<T>, x: T): (i: nat)
    requires x in s
    ensures i < |s| && s[i] == x
  {
    if s[0] == x then 0 else 1 + IndexOf(s[1..], x)
  }

  // ---------------------------------------------------------------------------
  // Filters and queries

  /** Every field may be left empty, which matches every value. */
  datatype Filter = Filter(
    name: string,
    target: string,
    version: string,
    os: string,
    arch: string,
    publisher: string,
    vendor: string)

  /** The version a filter names to ask for each plugin's recommended version. */
  const VERSION_LATEST: string := "latest"

  const EMPTY_FILTER: Filter := Filter("", "", "", "", "", "", "")

  /** The message of the error a store without the PluginBinaries table gives. */
  const DB_SETUP_ERROR: string := "unable to setup DB"

  predicate FieldMatches(want: string, have: string) {
    want == "" || want == have
  }

  /** The version dimension of one row: a literal version matches its textual form.
      "latest" passes here; it is resolved against the whole table by LatestRows. */
  predicate VersionMatches(want: string, r: Row): (b: bool)
    ensures want == "" || want == VERSION_LATEST ==> b
    ensures want != "" && want != VERSION_LATEST ==> (b <==> Parse(want) == Some(r.version))
  {
    FormatMatchesParse(want, r.version);
    want == "" || want == VERSION_LATEST || want == Format(r.version)
  }

  predicate RowMatches(f: Filter, r: Row): (b: bool)
    ensures f == EMPTY_FILTER ==> b
    ensures b && f.version != "" && f.version != VERSION_LATEST ==> Parse(f.version) == Some(r.version)
  {
    && FieldMatches(f.name, r.pluginName)
    && FieldMatches(f.target, TargetName(r.target))
    && VersionMatches(f.version, r)
    && FieldMatches(f.os, r.os)
    && FieldMatches(f.arch, r.architecture)
    && FieldMatches(f.publisher, r.publisher)
    && FieldMatches(f.vendor, r.vendor)
  }

  /** The rows of `rs` that match `f`, in table order. */
  function SelectRows(f: Filter, rs: seq<Row>): seq<Row>
    decreases |rs|
  {
    if rs == [] then []
    else if RowMatches(f, rs[0]) then [rs[0]] + SelectRows(f, rs[1..])
    else SelectRows(f, rs[1..])
  }

  /** The selected rows are exactly the rows of `rs` that match `f`. */
  lemma {:induction false} SelectedRows(f: Filter, rs: seq<Row>)
    ensures forall r :: r in SelectRows(f, rs) <==> r in rs && RowMatches(f, r)
    decreases |rs|
  {
    if rs != [] {
      SelectedRows(f, rs[1..]);
      assert rs == [rs[0]] + rs[1..];
    }
  }

  /** `[r]` when `r` matches `f`, otherwise nothing. */
  function Kept(f: Filter, r: Row): seq<Row> {
    if RowMatches(f, r) then [r] else []
  }

  /** Selecting from a non-empty list decides its first row, then selects from the rest. */
  lemma SelectFirst(f: Filter, r: Row, rest: seq<Row>)
    ensures SelectRows(f, [r] + rest) == Kept(f, r) + SelectRows(f, rest)
  {
    assert ([r] + rest)[1..] == rest;
  }

  /** `r` is at the recommended version of its plugin, computed over all of `rows`. */
  predicate AtRecommendedVersion(rows: seq<Row>, r: Row) {
    var g := GroupRows(rows, KeyOf(r));
    g != [] && r.version == RecommendedVersion(g)
  }

  /** The rows of `rs` at their plugin's recommended version in the whole table `rows`. */
  function LatestRows(rows: seq<Row>, rs: seq<Row>): seq<Row>
    decreases |rs|
  {
    if rs == [] then []
    else if AtRecommendedVersion(rows, rs[0]) then [rs[0]] + LatestRows(rows, rs[1..])
    else LatestRows(rows, rs[1..])
  }

  lemma {:induction false} LatestRowsMembers(rows: seq<Row>, rs: seq<Row>)
    ensures forall r :: r in LatestRows(rows, rs) <==> r in rs && AtRecommendedVersion(rows, r)
    decreases |rs|
  {
    if rs != [] {
      LatestRowsMembers(rows, rs[1..]);
      assert rs == [rs[0]] + rs[1..];
    }
  }

  /** A row passes a filter when it matches every field and, with "latest", is at
      the recommended version of its plugin over the unfiltered table. */
  predicate Passes(rows: seq<Row>, f: Filter, r: Row) {
    RowMatches(f, r) && (f.version == VERSION_LATEST ==> AtRecommendedVersion(rows, r))
  }

  /** The rows GetPlugins groups: those matching the filter's fields, narrowed to
      each plugin's recommended version when the filter asks for "latest". */
  function Selection(rows: seq<Row>, f: Filter): seq<Row> {
    var matching := SelectRows(f, rows);
    if f.version == VERSION_LATEST then LatestRows(rows, matching) else matching
  }

  /** The selection is exactly the rows of the table that pass the filter. */
  lemma Selected(rows: seq<Row>, f: Filter)
    ensures forall r :: r in Selection(rows, f) <==> r in rows && Passes(rows, f, r)
  {
    SelectedRows(f, rows);
    LatestRowsMembers(rows, SelectRows(f, rows));
  }

  /** The store: the table, or a store file in which the table was never created. */
  datatype Store = MissingTable | Table(rows: seq<Row>)

  /** Entries for the rows that pass `f`; the filter is applied before grouping. */
  function GetPlugins(store: Store, f: Filter, root: string): (res: Result<seq<Entry>, string>)
    ensures res.Failure? <==> store.MissingTable?
    ensures res.Failure? ==> res.error == DB_SETUP_ERROR
    ensures res.Success? ==> forall e | e in res.value :: EntryKey(e) in KeySet(store.rows)
  {
    match store
    case MissingTable => Failure(DB_SETUP_ERROR)
    case Table(rows) =>
      var sel := Selection(rows, f);
      Selected(rows, f);
      assert KeySet(sel) <= KeySet(rows);
      Success(Aggregate(sel, root))
  }

  /** Entries for all plugins of the store. */
  function GetAllPlugins(store: Store, root: string): (res: Result<seq<Entry>, string>)
    ensures res.Failure? <==> store.MissingTable?
    ensures res.Failure? ==> res.error == DB_SETUP_ERROR
    ensures res.Success? ==> forall e | e in res.value :: EntryKey(e) in KeySet(store.rows)
  {
    match store
    case MissingTable => Failure(DB_SETUP_ERROR)
    case Table(rows) => Success(Aggregate(rows, root))
  }

  // ---------------------------------------------------------------------------
  // Properties

  /** `e` is the entry of its plugin in `rows`: its versions are exactly the
      plugin's versions, and its artifacts are exactly the plugin's rows, each under
      its own version, with as many artifacts at a version as the plugin has rows there. */
  ghost predicate DescribesPlugin(rows: seq<Row>, root: string, e: Entry) {
    && ValidEntry(e)
    && (forall v :: v in e.availableVersions <==> exists r :: r in rows && KeyOf(r) == EntryKey(e) && r.version == v)
    && (forall v, a | v in e.artifacts && a in e.artifacts[v] ::
          exists r :: r in rows && KeyOf(r) == EntryKey(e) && r.version == v && ArtifactOf(r, root) == a)
    && (forall r | r in rows && KeyOf(r) == EntryKey(e) ::
          r.version in e.artifacts && ArtifactOf(r, root) in e.artifacts[r.version])
    && (forall v | v in e.artifacts :: |e.artifacts[v]| == RowsAt(GroupRows(rows, EntryKey(e)), v))
  }

  /** The versions of a plugin's group are the versions of the plugin's rows. */
  lemma GroupVersions(rows: seq<Row>, k: Key, vs: seq<Version>)
    requires forall v :: v in vs <==> exists r :: r in GroupRows(rows, k) && r.version == v
    ensures forall v :: v in vs <==> exists r :: r in rows && KeyOf(r) == k && r.version == v
  {
    forall v | v in vs
      ensures exists r :: r in rows && KeyOf(r) == k && r.version == v
    {
      var r :| r in GroupRows(rows, k) && r.version == v;
    }
  }

  /** Artifacts that come from a plugin's group come from the plugin's rows. */
  lemma GroupArtifactsSound(rows: seq<Row>, k: Key, root: string, arts: map<Version, seq<Artifact>>)
    requires forall v, a | v in arts && a in arts[v] ::
      exists r :: r in GroupRows(rows, k) && r.version == v && ArtifactOf(r, root) == a
    ensures forall v, a | v in arts && a in arts[v] ::
      exists r :: r in rows && KeyOf(r) == k && r.version == v && ArtifactOf(r, root) == a
  {
    forall v, a | v in arts && a in arts[v]
      ensures exists r :: r in rows && KeyOf(r) == k && r.version == v && ArtifactOf(r, root) == a
    {
      var r :| r in GroupRows(rows, k) && r.version == v && ArtifactOf(r, root) == a;
    }
  }

  /** An entry that describes the rows `g` describes the plugin whose rows `g` are. */
  lemma DescribesGroup(rows: seq<Row>, k: Key, root: string, e: Entry)
    requires EntryKey(e) == k && DescribesRows(GroupRows(rows, k), root, e)
    ensures DescribesPlugin(rows, root, e)
  {
    GroupVersions(rows, k, e.availableVersions);
    GroupArtifactsSound(rows, k, root, e.artifacts);
  }

  /** The entry made for a plugin describes that plugin's rows, takes its metadata
      from the plugin's first row and follows the recommended-version rule. */
  lemma PluginEntrySpec(rows: seq<Row>, k: Key, root: string)
    requires k in KeySet(rows)
    ensures GroupRows(rows, k) != []
    ensures var e := MakeEntry(GroupRows(rows, k), root);
      DescribesPlugin(rows, root, e) && HeaderFrom(GroupRows(rows, k), e)
  {
    var g := GroupRows(rows, k);
    var e := MakeEntry(g, root);
    MakeEntrySpec(g, root);
    DescribesGroup(rows, k, root, e);
  }

  /** Each entry of Aggregate describes its plugin's rows. */
  lemma AggregateEntryDescribes(rows: seq<Row>, root: string, e: Entry)
    requires e in Aggregate(rows, root)
    ensures EntryKey(e) in KeySet(rows) && DescribesPlugin(rows, root, e)
    ensures HeaderFrom(GroupRows(rows, EntryKey(e)), e)
  {
    var es := Aggregate(rows, root);
    var i :| 0 <= i < |es| && es[i] == e;
    PluginEntrySpec(rows, EntryKey(e), root);
  }

  /** Every plugin of the table has an entry in Aggregate. */
  lemma AggregateCoversKey(rows: seq<Row>, root: string, k: Key)
    requires k in KeySet(rows)
    ensures exists e :: e in Aggregate(rows, root) && EntryKey(e) == k
  {
    var es := Aggregate(rows, root);
    var i :| 0 <= i < |es| && EntryKey(es[i]) == k;
    assert es[i] in es;
  }

  /** What GetAllPlugins returns on a table: one entry per plugin and no other, each
      describing exactly that plugin's rows, with the metadata of the plugin's first
      row and its recommended version. */
  lemma GetAllPluginsSpec(rows: seq<Row>, root: string)
    ensures GetAllPlugins(Table(rows), root).Success?
    ensures var es := GetAllPlugins(Table(rows), root).value;
      && (forall k :: k in KeySet(rows) <==> exists e :: e in es && EntryKey(e) == k)
      && (forall i, j | 0 <= i < j < |es| :: EntryKey(es[i]) != EntryKey(es[j]))
      && (forall e | e in es :: DescribesPlugin(rows, root, e))
      && (forall e | e in es :: HeaderFrom(GroupRows(rows, EntryKey(e)), e))
  {
    var es := Aggregate(rows, root);
    forall e | e in es
      ensures EntryKey(e) in KeySet(rows) && DescribesPlugin(rows, root, e)
      ensures HeaderFrom(GroupRows(rows, EntryKey(e)), e)
    {
      AggregateEntryDescribes(rows, root, e);
    }
    forall k | k in KeySet(rows)
      ensures exists e :: e in es && EntryKey(e) == k
    {
      AggregateCoversKey(rows, root, k);
    }
  }

  /** A sequence without repetition has as many elements as its set. */
  lemma {:induction false} DistinctCard<T>(s: seq<T>)
    requires forall i, j | 0 <= i < j < |s| :: s[i] != s[j]
    ensures |set x | x in s| == |s|
  {
    if s != [] {
      DistinctCard(s[1..]);
      assert (set x | x in s) == {s[0]} + (set x | x in s[1..]);
      assert s[0] !in (set x | x in s[1..]);
    }
  }

  function KeysOf(es: seq<Entry>): (ks: seq<Key>)
    ensures |ks| == |es| && forall i | 0 <= i < |es| :: ks[i] == EntryKey(es[i])
  {
    if es == [] then [] else [EntryKey(es[0])] + KeysOf(es[1..])
  }

  /** The keys of Aggregate's entries are the table's plugins, each once. */
  lemma AggregateKeys(rows: seq<Row>, root: string)
    ensures var ks := KeysOf(Aggregate(rows, root));
      (forall i, j | 0 <= i < j < |ks| :: ks[i] != ks[j]) && (set k | k in ks) == KeySet(rows)
  {
    KeysOfEntries(rows, Aggregate(rows, root));
  }

  lemma KeysOfEntries(rows: seq<Row>, es: seq<Entry>)
    requires forall i | 0 <= i < |es| :: EntryKey(es[i]) in KeySet(rows)
    requires forall k | k in KeySet(rows) :: exists i :: 0 <= i < |es| && EntryKey(es[i]) == k
    requires forall i, j | 0 <= i < j < |es| :: EntryKey(es[i]) != EntryKey(es[j])
    ensures var ks := KeysOf(es);
      (forall i, j | 0 <= i < j < |ks| :: ks[i] != ks[j]) && (set k | k in ks) == KeySet(rows)
  {
    var ks := KeysOf(es);
    forall k | k in KeySet(rows) ensures k in ks {
      var i :| 0 <= i < |es| && EntryKey(es[i]) == k;
      assert ks[i] == k;
    }
  }

  /** GetAllPlugins returns exactly one entry per plugin. */
  lemma EntryCount(rows: seq<Row>, root: string)
    ensures |GetAllPlugins(Table(rows), root).value| == |KeySet(rows)|
  {
    AggregateKeys(rows, root);
    DistinctCard(KeysOf(Aggregate(rows, root)));
  }

  /** An entry of Aggregate is the entry made from its plugin's rows. */
  lemma AggregateEntryIsMade(rows: seq<Row>, root: string, e: Entry)
    requires e in Aggregate(rows, root)
    ensures GroupRows(rows, EntryKey(e)) != [] && e == MakeEntry(GroupRows(rows, EntryKey(e)), root)
  {
    var es := Aggregate(rows, root);
    var i :| 0 <= i < |es| && es[i] == e;
  }

  /** The entry made from a plugin's rows is in Aggregate. */
  lemma MadeEntryInAggregate(rows: seq<Row>, root: string, k: Key)
    requires k in KeySet(rows)
    ensures GroupRows(rows, k) != [] && MakeEntry(GroupRows(rows, k), root) in Aggregate(rows, root)
  {
    var es := Aggregate(rows, root);
    var i :| 0 <= i < |es| && EntryKey(es[i]) == k;
    assert es[i] in es;
  }

  /** When a plugin's rows agree on it, its stored recommendation is that of any of its rows. */
  lemma StoredRecommendedOfGroup(rows: seq<Row>, r: Row)
    requires r in rows && RecommendationAgreed(rows, KeyOf(r))
    ensures StoredRecommended(GroupRows(rows, KeyOf(r))) == r.recommendedVersion
  {
    var g := GroupRows(rows, KeyOf(r));
    assert forall w | w in g :: w.recommendedVersion == r.recommendedVersion;
  }

  /** The recommended-version rule, first half: a recommendation stored on the
      plugin's rows is the entry's recommended version. */
  lemma StoredRecommendationWins(rows: seq<Row>, root: string, e: Entry, r: Row)
    requires RecommendationAgreed(rows, EntryKey(e))
    requires e in GetAllPlugins(Table(rows), root).value
    requires r in rows && KeyOf(r) == EntryKey(e) && r.recommendedVersion.Some?
    ensures e.recommendedVersion == r.recommendedVersion.value
  {
    AggregateEntryIsMade(rows, root, e);
    StoredRecommendedOfGroup(rows, r);
  }

  /** An entry of Aggregate takes its description, publisher and vendor from one of
      its plugin's rows. */
  lemma MetadataSource(rows: seq<Row>, root: string, e: Entry) returns (w: Row)
    requires e in Aggregate(rows, root)
    ensures w in rows && KeyOf(w) == EntryKey(e)
    ensures e.description == w.description && e.publisher == w.publisher && e.vendor == w.vendor
  {
    AggregateEntryIsMade(rows, root, e);
    var g := GroupRows(rows, EntryKey(e));
    w := g[0];
    assert w in g;
  }

  /** When a plugin's rows agree on them, its entry in GetAllPlugins reports the
      description, publisher and vendor of any of its rows. */
  lemma GetAllPluginsMetadata(rows: seq<Row>, root: string, e: Entry, r: Row)
    requires MetadataAgreed(rows, EntryKey(e))
    requires e in GetAllPlugins(Table(rows), root).value
    requires r in rows && KeyOf(r) == EntryKey(e)
    ensures e.description == r.description && e.publisher == r.publisher && e.vendor == r.vendor
  {
    var w := MetadataSource(rows, root, e);
  }

  /** When a plugin's rows agree on them, its entry in GetPlugins reports the
      description, publisher and vendor of any of its rows, whichever of them the
      filter kept. */
  lemma GetPluginsMetadata(rows: seq<Row>, f: Filter, root: string, e: Entry, r: Row)
    requires MetadataAgreed(rows, EntryKey(e))
    requires e in GetPlugins(Table(rows), f, root).value
    requires r in rows && KeyOf(r) == EntryKey(e)
    ensures e.description == r.description && e.publisher == r.publisher && e.vendor == r.vendor
  {
    Selected(rows, f);
    var w := MetadataSource(Selection(rows, f), root, e);
    assert w in rows;
  }

  /** The recommended-version rule, second half: without a stored recommendation
      the entry recommends its highest available version. */
  lemma HighestVersionRecommended(rows: seq<Row>, root: string, e: Entry)
    requires e in GetAllPlugins(Table(rows), root).value
    requires forall r | r in rows && KeyOf(r) == EntryKey(e) :: r.recommendedVersion.None?
    ensures e.recommendedVersion in e.availableVersions
    ensures forall v | v in e.availableVersions :: v == e.recommendedVersion || Less(v, e.recommendedVersion)
  {
    AggregateEntryIsMade(rows, root, e);
    MakeEntrySpec(GroupRows(rows, EntryKey(e)), root);
  }

  /** An empty filter selects every row, so GetPlugins(empty) is GetAllPlugins. */
  lemma {:induction false} SelectAllRows(rs: seq<Row>)
    ensures SelectRows(EMPTY_FILTER, rs) == rs
    decreases |rs|
  {
    if rs != [] {
      SelectAllRows(rs[1..]);
      assert RowMatches(EMPTY_FILTER, rs[0]);
      assert rs == [rs[0]] + rs[1..];
    }
  }

  lemma EmptyFilterIsGetAllPlugins(store: Store, root: string)
    ensures GetPlugins(store, EMPTY_FILTER, root) == GetAllPlugins(store, root)
  {
    if store.Table? {
      SelectAllRows(store.rows);
    }
  }

  /** A missing table is an error, for every query. */
  lemma MissingTableIsError(f: Filter, root: string)
    ensures GetAllPlugins(MissingTable, root) == Failure(DB_SETUP_ERROR)
    ensures GetPlugins(MissingTable, f, root) == Failure(DB_SETUP_ERROR)
  {
  }

  /** No matching row gives an empty list, not an error; and only then. */
  lemma NoMatchIsEmpty(rows: seq<Row>, f: Filter, root: string)
    ensures GetPlugins(Table(rows), f, root) == Success([]) <==> forall r | r in rows :: !Passes(rows, f, r)
  {
    var sel := Selection(rows, f);
    Selected(rows, f);
    if sel != [] {
      assert KeyOf(sel[0]) in KeySet(sel);
    }
  }

  /** Every artifact GetPlugins reports comes from a row that passes the filter. */
  lemma FilteredArtifactsSound(rows: seq<Row>, f: Filter, root: string)
    ensures forall e, v, a | e in GetPlugins(Table(rows), f, root).value && v in e.artifacts && a in e.artifacts[v] ::
      exists r :: r in rows && Passes(rows, f, r) && KeyOf(r) == EntryKey(e) && r.version == v && ArtifactOf(r, root) == a
  {
    var sel := Selection(rows, f);
    Selected(rows, f);
    var es := Aggregate(sel, root);
    forall e, v, a | e in es && v in e.artifacts && a in e.artifacts[v]
      ensures exists r :: r in rows && Passes(rows, f, r) && KeyOf(r) == EntryKey(e) && r.version == v && ArtifactOf(r, root) == a
    {
      AggregateEntryDescribes(sel, root, e);
      var r :| r in sel && KeyOf(r) == EntryKey(e) && r.version == v && ArtifactOf(r, root) == a;
    }
  }

  /** Every row that passes the filter is reported, under its plugin and version. */
  lemma FilteredArtifactsComplete(rows: seq<Row>, f: Filter, root: string)
    ensures forall r | r in rows && Passes(rows, f, r) ::
      exists e :: e in GetPlugins(Table(rows), f, root).value && EntryKey(e) == KeyOf(r) &&
        r.version in e.artifacts && ArtifactOf(r, root) in e.artifacts[r.version]
  {
    var sel := Selection(rows, f);
    Selected(rows, f);
    var es := Aggregate(sel, root);
    forall r | r in rows && Passes(rows, f, r)
      ensures exists e :: e in es && EntryKey(e) == KeyOf(r) && r.version in e.artifacts && ArtifactOf(r, root) in e.artifacts[r.version]
    {
      assert r in sel && KeyOf(r) in KeySet(sel);
      AggregateCoversKey(sel, root, KeyOf(r));
      var e :| e in es && EntryKey(e) == KeyOf(r);
      AggregateEntryDescribes(sel, root, e);
    }
  }

  /** GetPlugins describes the rows that pass the filter: every artifact it reports
      comes from a row that passes, and every row that passes is reported. */
  lemma FilteredArtifacts(rows: seq<Row>, f: Filter, root: string)
    ensures var es := GetPlugins(Table(rows), f, root).value;
      && (forall e, v, a | e in es && v in e.artifacts && a in e.artifacts[v] ::
            exists r :: r in rows && Passes(rows, f, r) && KeyOf(r) == EntryKey(e) && r.version == v && ArtifactOf(r, root) == a)
      && (forall r | r in rows && Passes(rows, f, r) ::
            exists e :: e in es && EntryKey(e) == KeyOf(r) && r.version in e.artifacts && ArtifactOf(r, root) in e.artifacts[r.version])
  {
    FilteredArtifactsSound(rows, f, root);
    FilteredArtifactsComplete(rows, f, root);
  }

  /** An OS or architecture filter leaves only artifacts built for that platform. */
  lemma PlatformFilter(rows: seq<Row>, f: Filter, root: string)
    ensures forall e, v, a | e in GetPlugins(Table(rows), f, root).value && v in e.artifacts && a in e.artifacts[v] ::
      FieldMatches(f.os, a.os) && FieldMatches(f.arch, a.arch)
  {
    FilteredArtifacts(rows, f, root);
  }

  /** A literal version filter leaves only the version whose textual form it is. */
  lemma ExactVersionFilter(rows: seq<Row>, f: Filter, root: string)
    requires f.version != "" && f.version != VERSION_LATEST
    ensures forall e, v | e in GetPlugins(Table(rows), f, root).value && v in e.availableVersions ::
      Parse(f.version) == Some(v)
  {
    var sel := Selection(rows, f);
    Selected(rows, f);
    forall e, v | e in Aggregate(sel, root) && v in e.availableVersions
      ensures Parse(f.version) == Some(v)
    {
      var r := VersionSource(sel, root, e, v);
      assert Passes(rows, f, r);
      FormatMatchesParse(f.version, v);
    }
  }

  /** A row of `rows` that a version of an Aggregate entry comes from. */
  lemma VersionSource(rows: seq<Row>, root: string, e: Entry, v: Version) returns (r: Row)
    requires e in Aggregate(rows, root) && v in e.availableVersions
    ensures r in rows && KeyOf(r) == EntryKey(e) && r.version == v
  {
    AggregateEntryIsMade(rows, root, e);
    var g := GroupRows(rows, EntryKey(e));
    assert exists w :: w in g && w.version == v by {
      assert v in SortVersions(VersionsOf(g));
    }
    r :| r in g && r.version == v;
  }

  /** Selecting keeps a plugin's whole group when every row of the group passes. */
  lemma {:induction false} SelectWholeGroup(f: Filter, rs: seq<Row>, k: Key)
    requires forall r | r in rs && KeyOf(r) == k :: RowMatches(f, r)
    ensures GroupRows(SelectRows(f, rs), k) == GroupRows(rs, k)
    decreases |rs|
  {
    if rs != [] {
      SelectWholeGroup(f, rs[1..], k);
    }
  }

  /** The plugin-level part of a filter. */
  predicate EntryMatches(f: Filter, e: Entry) {
    && FieldMatches(f.name, e.name)
    && FieldMatches(f.target, TargetName(e.target))
    && FieldMatches(f.publisher, e.publisher)
    && FieldMatches(f.vendor, e.vendor)
  }

  /** With a filter on name, target, publisher or vendor only, a plugin's rows all
      pass or all fail. */
  lemma PluginLevelFilterIsUniform(rows: seq<Row>, f: Filter, k: Key, w: Row)
    requires PublisherVendorAgreed(rows)
    requires f.version == "" && f.os == "" && f.arch == ""
    requires w in rows && KeyOf(w) == k
    ensures forall r | r in rows && KeyOf(r) == k :: RowMatches(f, r) == RowMatches(f, w)
  {
  }

  /** A filter on name, target, publisher or vendor only keeps whole plugins: the
      result is exactly the GetAllPlugins entries that match, with all their versions. */
  lemma PluginLevelFilter(rows: seq<Row>, f: Filter, root: string)
    requires PublisherVendorAgreed(rows)
    requires f.version == "" && f.os == "" && f.arch == ""
    ensures forall e :: e in GetPlugins(Table(rows), f, root).value <==>
      e in GetAllPlugins(Table(rows), root).value && EntryMatches(f, e)
  {
    var sel := Selection(rows, f);
    assert sel == SelectRows(f, rows);
    Selected(rows, f);
    forall e
      ensures e in Aggregate(sel, root) <==> e in Aggregate(rows, root) && EntryMatches(f, e)
    {
      var k := EntryKey(e);
      if e in Aggregate(sel, root) {
        AggregateEntryIsMade(sel, root, e);
        var w := GroupRows(sel, k)[0];
        assert w in sel;
        PluginLevelFilterIsUniform(rows, f, k, w);
        SelectWholeGroup(f, rows, k);
        MadeEntryInAggregate(rows, root, k);
      }
      if e in Aggregate(rows, root) && EntryMatches(f, e) {
        AggregateEntryIsMade(rows, root, e);
        var w := GroupRows(rows, k)[0];
        assert w in rows && RowMatches(f, w);
        PluginLevelFilterIsUniform(rows, f, k, w);
        SelectWholeGroup(f, rows, k);
        assert w in sel;
        MadeEntryInAggregate(sel, root, k);
      }
    }
  }

  /** A stored recommended version survives any filter that keeps the plugin. */
  lemma StoredRecommendationSurvivesFilter(rows: seq<Row>, f: Filter, root: string, e: Entry, r: Row)
    requires RecommendationAgreed(rows, EntryKey(e))
    requires e in GetPlugins(Table(rows), f, root).value
    requires r in rows && KeyOf(r) == EntryKey(e) && r.recommendedVersion.Some?
    ensures e.recommendedVersion == r.recommendedVersion.value
  {
    var sel := Selection(rows, f);
    Selected(rows, f);
    AggregateEntryIsMade(sel, root, e);
    var g := GroupRows(sel, EntryKey(e));
    assert g[0] in g;
    assert StoredRecommended(g) == r.recommendedVersion;
  }

  /** With "latest", the selected rows of a plugin are those at its unfiltered
      recommended version, and they carry the same stored recommendation. */
  lemma LatestSelectsRecommended(rows: seq<Row>, f: Filter, k: Key)
    requires RecommendationAgreed(rows, k)
    requires f.version == VERSION_LATEST
    requires GroupRows(Selection(rows, f), k) != []
    ensures GroupRows(rows, k) != []
    ensures var g := GroupRows(Selection(rows, f), k);
      && (forall r | r in g :: r.version == RecommendedVersion(GroupRows(rows, k)))
      && StoredRecommended(g) == StoredRecommended(GroupRows(rows, k))
  {
    var g := GroupRows(Selection(rows, f), k);
    Selected(rows, f);
    assert g[0] in g;
    StoredRecommendedOfGroup(rows, g[0]);
    assert StoredRecommended(g) == g[0].recommendedVersion;
  }

  /** With "latest", each plugin reports exactly its unfiltered recommended version. */
  lemma LatestResolvesToRecommended(rows: seq<Row>, f: Filter, root: string, e: Entry)
    requires RecommendationAgreed(rows, EntryKey(e))
    requires f.version == VERSION_LATEST
    requires e in GetPlugins(Table(rows), f, root).value
    ensures GroupRows(rows, EntryKey(e)) != []
    ensures var recommended := RecommendedVersion(GroupRows(rows, EntryKey(e)));
      e.availableVersions == [recommended] && e.recommendedVersion == recommended
  {
    var k := EntryKey(e);
    var sel := Selection(rows, f);
    Selected(rows, f);
    AggregateEntryIsMade(sel, root, e);
    LatestSelectsRecommended(rows, f, k);
    SingleVersionEntry(GroupRows(sel, k), root, RecommendedVersion(GroupRows(rows, k)));
  }

  /** The entry of rows that all share one version lists that version alone and
      recommends it unless a stored recommendation says otherwise. */
  lemma SingleVersionEntry(g: seq<Row>, root: string, v: Version)
    requires g != [] && forall r | r in g :: r.version == v
    ensures MakeEntry(g, root).availableVersions == [v]
    ensures StoredRecommended(g).None? ==> MakeEntry(g, root).recommendedVersion == v
  {
    var e := MakeEntry(g, root);
    MakeEntrySpec(g, root);
    assert g[0] in g;
    assert forall w :: w in e.availableVersions <==> w == v;
    StrictlySortedUnique(e.availableVersions, [v]);
  }

  /** The version list of an entry does not depend on the order of the rows. */
  lemma AvailableVersionsOrderIndependent(rs1: seq<Row>, rs2: seq<Row>, root: string)
    requires rs1 != [] && rs2 != []
    requires forall r :: r in rs1 <==> r in rs2
    ensures MakeEntry(rs1, root).availableVersions == MakeEntry(rs2, root).availableVersions
  {
    SortVersionsOrderIndependent(VersionsOf(rs1), VersionsOf(rs2));
  }
}
