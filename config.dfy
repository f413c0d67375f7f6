/**
 * The cluster list of `clusters.yaml` and its validation
 * (internal/config/config.go). Locating, reading and decoding the file are
 * inputs: the decoded file, or the message of the step that failed.
 */
module Config {
  import opened Wrappers
  import opened Text

  datatype ClusterConfig = ClusterConfig(
    name: string, region: string, clusterName: string,
    environment: string, profile: string, directConnect: bool)

  /** The SSO settings used in login hints. */
  datatype SSOConfig = SSOConfig(startURL: string, region: string)

  datatype ConfigFile = ConfigFile(sso: SSOConfig, clusters: seq<ClusterConfig>)

  const DefaultEnvironment: string := "unknown"
  /** The shortest region accepted, in bytes. */
  const MinRegionBytes: nat := 3

  datatype ConfigError =
    | Unreadable(message: string)
    | NoClusters(path: string)
    | MissingName(index: nat)
    | InvalidRegion(index: nat, region: string)
    | MissingClusterName(index: nat)
    | MissingProfile(index: nat)
    | DuplicateName(index: nat, name: string)
  {
    /** The error's text. */
    function Message(): string {
      match this
      case Unreadable(m) => m
      case NoClusters(path) => "no clusters defined in " + path
      case MissingName(i) => "cluster " + IntToString(i) + ": missing name"
      case InvalidRegion(i, region) => "cluster " + IntToString(i) + ": invalid region " + Quote(region)
      case MissingClusterName(i) => "cluster " + IntToString(i) + ": missing cluster_name"
      case MissingProfile(i) => "cluster " + IntToString(i) + ": missing profile"
      case DuplicateName(i, name) => "cluster " + IntToString(i) + ": duplicate name " + Quote(name)
    }

    /** The index of the cluster the error is about, if it is about one. */
    function Index(): Option<nat> {
      match this
      case Unreadable(_) => None
      case NoClusters(_) => None
      case MissingName(i) => Some(i)
      case InvalidRegion(i, _) => Some(i)
      case MissingClusterName(i) => Some(i)
      case MissingProfile(i) => Some(i)
      case DuplicateName(i, _) => Some(i)
    }
  }

  // ---------------------------------------------------------------------------
  // validateCluster
  // ---------------------------------------------------------------------------

  /** The region check: non-empty and at least three bytes long. */
  predicate RegionOk(region: string) {
    region != "" && Utf8Len(region) >= MinRegionBytes
  }

  /** All four required fields are present and the region is long enough. */
  predicate Complete(c: ClusterConfig) {
    c.name != "" && RegionOk(c.region) && c.clusterName != "" && c.profile != ""
  }

  /**
   * The checks of `validateCluster`, in order: name, region, cluster name,
   * profile. The result is the first that fails, about cluster `idx`.
   */
  function CheckCluster(c: ClusterConfig, idx: nat): (r: Option<ConfigError>)
    ensures r.None? <==> Complete(c)
    ensures r == Some(MissingName(idx)) <==> c.name == ""
    ensures r == Some(InvalidRegion(idx, c.region)) <==> c.name != "" && !RegionOk(c.region)
    ensures r == Some(MissingClusterName(idx)) <==> c.name != "" && RegionOk(c.region) && c.clusterName == ""
    ensures r == Some(MissingProfile(idx)) <==>
      c.name != "" && RegionOk(c.region) && c.clusterName != "" && c.profile == ""
    ensures r.Some? ==> r.value.Index() == Some(idx)
  {
    if c.name == "" then Some(MissingName(idx))
    else if c.region == "" || Utf8Len(c.region) < MinRegionBytes then Some(InvalidRegion(idx, c.region))
    else if c.clusterName == "" then Some(MissingClusterName(idx))
    else if c.profile == "" then Some(MissingProfile(idx))
    else None
  }

  /** A valid cluster with an empty environment gets the default one. */
  function WithDefaults(c: ClusterConfig): (d: ClusterConfig)
    ensures d.environment != ""
    ensures d.environment == (if c.environment == "" then DefaultEnvironment else c.environment)
    ensures d == c.(environment := d.environment)
  {
    if c.environment == "" then c.(environment := DefaultEnvironment) else c
  }

  /**
   * `validateCluster`, which updates the cluster through a pointer: on
   * success the environment is defaulted and nothing else changes; on failure
   * nothing changes.
   */
  method ValidateCluster(cs: array<ClusterConfig>, idx: nat) returns (err: Option<ConfigError>)
    requires idx < cs.Length
    modifies cs
    ensures err == CheckCluster(old(cs[idx]), idx)
    ensures cs[idx] == (if err.None? then WithDefaults(old(cs[idx])) else old(cs[idx]))
    ensures forall j :: 0 <= j < cs.Length && j != idx ==> cs[j] == old(cs[j])
  {
    var c := cs[idx];
    if c.name == "" {
      return Some(MissingName(idx));
    }
    if c.region == "" || Utf8Len(c.region) < MinRegionBytes {
      return Some(InvalidRegion(idx, c.region));
    }
    if c.clusterName == "" {
      return Some(MissingClusterName(idx));
    }
    if c.profile == "" {
      return Some(MissingProfile(idx));
    }
    if c.environment == "" {
      cs[idx] := c.(environment := DefaultEnvironment);
    }
    return None;
  }

  // ---------------------------------------------------------------------------
  // LoadClusters
  // ---------------------------------------------------------------------------

  /** Cluster `i` reuses the name of an earlier cluster. */
  predicate Duplicated(cs: seq<ClusterConfig>, i: nat)
    requires i < |cs|
  {
    exists j :: 0 <= j < i && cs[j].name == cs[i].name
  }

  /** The names of the clusters before index `i`. */
  function NamesBefore(cs: seq<ClusterConfig>, i: nat): set<string>
    requires i <= |cs|
  {
    if i == 0 then {} else NamesBefore(cs, i - 1) + {cs[i - 1].name}
  }

  /** A cluster is a duplicate exactly when its name is among the names before it. */
  lemma {:induction false} DuplicatedByNames(cs: seq<ClusterConfig>, i: nat, k: nat)
    requires k <= i < |cs|
    ensures cs[i].name in NamesBefore(cs, k) <==> exists j :: 0 <= j < k && cs[j].name == cs[i].name
  {
    if k > 0 {
      DuplicatedByNames(cs, i, k - 1);
    }
  }

  /** Cluster `i` stops the load: it is invalid or a duplicate. */
  predicate Bad(cs: seq<ClusterConfig>, i: nat)
    requires i < |cs|
  {
    CheckCluster(cs[i], i).Some? || Duplicated(cs, i)
  }

  /** The lowest index at or after `from` whose cluster stops the load. */
  function FirstBad(cs: seq<ClusterConfig>, from: nat): (r: Option<nat>)
    ensures r.Some? ==> from <= r.value < |cs| && Bad(cs, r.value)
    ensures r.Some? ==> forall j :: from <= j < r.value ==> !Bad(cs, j)
    ensures r.None? <==> forall j :: from <= j < |cs| ==> !Bad(cs, j)
    decreases |cs| - from
  {
    if from >= |cs| then None
    else if Bad(cs, from) then Some(from)
    else FirstBad(cs, from + 1)
  }

  /** Visiting cluster `i`: a bad one is the first bad one from `i`; a good one extends the names seen. */
  lemma LoadStep(cs: seq<ClusterConfig>, i: nat)
    requires i < |cs|
    ensures Bad(cs, i) ==> FirstBad(cs, i) == Some(i)
    ensures !Bad(cs, i) ==> FirstBad(cs, i) == FirstBad(cs, i + 1)
    ensures Duplicated(cs, i) <==> cs[i].name in NamesBefore(cs, i)
    ensures NamesBefore(cs, i + 1) == NamesBefore(cs, i) + {cs[i].name}
  {
    DuplicatedByNames(cs, i, i);
  }

  /** The error reported for cluster `k`: its own first failure, or else the duplicate name. */
  function ErrorAt(cs: seq<ClusterConfig>, k: nat): ConfigError
    requires k < |cs|
  {
    match CheckCluster(cs[k], k)
    case Some(e) => e
    case None => DuplicateName(k, cs[k].name)
  }

  function Defaulted(cs: seq<ClusterConfig>): seq<ClusterConfig> {
    seq(|cs|, i requires 0 <= i < |cs| => WithDefaults(cs[i]))
  }

  /** The error of the first cluster that stops the load, if any. */
  function FirstError(cs: seq<ClusterConfig>): Option<ConfigError> {
    match FirstBad(cs, 0)
    case Some(k) => Some(ErrorAt(cs, k))
    case None => None
  }

  /** What `LoadClusters` returns for the decoded file (or the message of the step that failed). */
  function Loaded(path: string, decoded: Result<ConfigFile, string>): Result<(seq<ClusterConfig>, SSOConfig), ConfigError> {
    match decoded
    case Err(m) => Err(Unreadable(m))
    case Ok(cf) =>
      if |cf.clusters| == 0 then Err(NoClusters(path))
      else
        match FirstError(cf.clusters)
        case Some(e) => Err(e)
        case None => Ok((Defaulted(cf.clusters), cf.sso))
  }

  /** `LoadClusters`: validate the decoded clusters in place, then return them. */
  method LoadClusters(path: string, decoded: Result<ConfigFile, string>)
    returns (r: Result<(seq<ClusterConfig>, SSOConfig), ConfigError>)
    ensures r == Loaded(path, decoded)
  {
    if decoded.Err? {
      return Err(Unreadable(decoded.error));
    }
    var cf := decoded.value;
    if |cf.clusters| == 0 {
      return Err(NoClusters(path));
    }
    var cs := cf.clusters;
    var arr := new ClusterConfig[|cs|](i requires 0 <= i < |cs| => cs[i]);
    assert arr[..] == cs;
    var err := ValidateAll(arr);
    if err.Some? {
      return Err(err.value);
    }
    return Ok((arr[..], cf.sso));
  }

  /**
   * The validation loop of `LoadClusters`: clusters in index order, remembering
   * the names seen so far; stops at the first cluster that is invalid or a
   * duplicate.
   */
  method ValidateAll(arr: array<ClusterConfig>) returns (err: Option<ConfigError>)
    modifies arr
    ensures err == FirstError(old(arr[..]))
    ensures err.None? ==> arr[..] == Defaulted(old(arr[..]))
  {
    ghost var cs := arr[..];
    var seen: set<string> := {};
    var i := 0;
    while i < arr.Length
      invariant 0 <= i <= arr.Length == |cs|
      invariant FirstBad(cs, i) == FirstBad(cs, 0)
      invariant forall j :: 0 <= j < arr.Length ==> arr[j] == if j < i then WithDefaults(cs[j]) else cs[j]
      invariant seen == NamesBefore(cs, i)
    {
      LoadStep(cs, i);
      err := ValidateCluster(arr, i);
      if err.Some? {
        return;
      }
      if arr[i].name in seen {
        return Some(DuplicateName(i, arr[i].name));
      }
      seen := seen + {arr[i].name};
      i := i + 1;
    }
    assert arr[..] == Defaulted(cs);
    return None;
  }

  // ---------------------------------------------------------------------------
  // What a load guarantees
  // ---------------------------------------------------------------------------

  /** A successful load holds complete clusters with an environment and pairwise distinct names. */
  lemma LoadedWellFormed(path: string, decoded: Result<ConfigFile, string>)
    ensures Loaded(path, decoded).Ok? ==>
      var cs := Loaded(path, decoded).value.0;
      && |cs| >= 1
      && (forall i :: 0 <= i < |cs| ==> Complete(cs[i]) && cs[i].environment != "")
      && (forall i, j :: 0 <= i < j < |cs| ==> cs[i].name != cs[j].name)
  {
    if Loaded(path, decoded).Ok? {
      var orig := decoded.value.clusters;
      var cs := Loaded(path, decoded).value.0;
      forall i | 0 <= i < |cs| ensures Complete(cs[i]) && cs[i].environment != "" {
        assert !Bad(orig, i);
      }
      forall i, j | 0 <= i < j < |cs| ensures cs[i].name != cs[j].name {
        assert !Bad(orig, j);
      }
    }
  }

  /**
   * A failed load reports the lowest-index cluster that is invalid or a
   * duplicate; a duplicate is reported at its later index, and an earlier
   * cluster carries the same name.
   */
  lemma LoadedErrorIsFirst(path: string, cf: ConfigFile)
    requires |cf.clusters| >= 1
    ensures Loaded(path, Ok(cf)).Err? <==> exists k :: 0 <= k < |cf.clusters| && Bad(cf.clusters, k)
    ensures Loaded(path, Ok(cf)).Err? ==>
      var e := Loaded(path, Ok(cf)).error;
      && e.Index().Some?
      && var k := e.Index().value;
      && k < |cf.clusters| && Bad(cf.clusters, k)
      && (forall j :: 0 <= j < k ==> !Bad(cf.clusters, j))
      && (e.DuplicateName? ==> e.name == cf.clusters[k].name && Duplicated(cf.clusters, k))
  {
    var cs := cf.clusters;
    if FirstBad(cs, 0).Some? {
      var k := FirstBad(cs, 0).value;
      assert ErrorAt(cs, k).Index() == Some(k);
    }
  }
}
