/**
 * The kubeconfig entries the tool owns (internal/kubeconfig/kubeconfig.go):
 * clusters whose server is `https://localhost:<port>` point at a local
 * tunnel. The decoded `kubectl config view` output is the list of clusters
 * held by a `Kubeconfig` object; `kubectl` runs are given by an oracle.
 */
module Kubeconfig {
  import opened Wrappers
  import opened Text

  /** One entry of the `clusters` list: its name and its server string. */
  datatype Cluster = Cluster(name: string, server: string)

  const LocalhostPrefix: string := "https://localhost:"
  const InactivePrefix: string := "# INACTIVE:"
  /** What a retired entry's server becomes: this text, then the old server. */
  const InactiveMark: string := "# INACTIVE: "

  /** The server string of the tunnel on local `port`. */
  function ServerFor(port: int): string {
    LocalhostPrefix + IntToString(port)
  }

  predicate IsInactive(server: string) {
    HasPrefix(server, InactivePrefix)
  }

  /** `c` is a live entry for the tunnel on `port`. */
  predicate Serves(c: Cluster, port: int) {
    !IsInactive(c.server) && c.server == ServerFor(port)
  }

  // ---------------------------------------------------------------------------
  // ContextForPort
  // ---------------------------------------------------------------------------

  /** The index of the first live entry for `port` at or after `from`. */
  function FirstServingFrom(cs: seq<Cluster>, port: int, from: nat): (r: Option<nat>)
    ensures r.Some? ==> from <= r.value < |cs| && Serves(cs[r.value], port)
    ensures r.Some? ==> forall j :: from <= j < r.value ==> !Serves(cs[j], port)
    ensures r.None? <==> forall j :: from <= j < |cs| ==> !Serves(cs[j], port)
    decreases |cs| - from
  {
    if from >= |cs| then None
    else if Serves(cs[from], port) then Some(from)
    else FirstServingFrom(cs, port, from + 1)
  }

  function FirstServing(cs: seq<Cluster>, port: int): Option<nat> {
    FirstServingFrom(cs, port, 0)
  }

  /** The name `ContextForPort` reports: the first live entry's, or "" when there is none. */
  function ContextOf(cs: seq<Cluster>, port: int): string {
    match FirstServing(cs, port)
    case Some(i) => cs[i].name
    case None => ""
  }

  // ---------------------------------------------------------------------------
  // Retiring entries
  // ---------------------------------------------------------------------------

  function Inactivated(c: Cluster): Cluster {
    Cluster(c.name, InactiveMark + c.server)
  }

  /** The clusters after `MarkPortInactive(port)`: entries whose server is exactly the port's are retired. */
  function MarkPort(cs: seq<Cluster>, port: int): seq<Cluster> {
    seq(|cs|, j requires 0 <= j < |cs| => if cs[j].server == ServerFor(port) then Inactivated(cs[j]) else cs[j])
  }

  /** The clusters after `MarkAllLocalhostInactive`: entries whose server starts with the localhost prefix are retired. */
  function MarkAll(cs: seq<Cluster>): seq<Cluster> {
    seq(|cs|, j requires 0 <= j < |cs| => if HasPrefix(cs[j].server, LocalhostPrefix) then Inactivated(cs[j]) else cs[j])
  }

  /** A retired server is never live. */
  lemma InactivatedIsInactive(c: Cluster)
    ensures IsInactive(Inactivated(c).server)
  {
    assert (InactiveMark + c.server)[..|InactivePrefix|] == InactivePrefix;
  }

  // ---------------------------------------------------------------------------
  // PortsInUse
  // ---------------------------------------------------------------------------

  /** The port a server string reserves: live, the localhost prefix, then an integer. */
  function PortOf(server: string): Option<int> {
    if IsInactive(server) then None
    else if HasPrefix(server, LocalhostPrefix) then Atoi(TrimPrefix(server, LocalhostPrefix))
    else None
  }

  /** The ports `PortsInUse` reports for `cs`. */
  function Ports(cs: seq<Cluster>): set<int> {
    set c | c in cs && PortOf(c.server).Some? :: PortOf(c.server).value
  }

  lemma PortsSnoc(cs: seq<Cluster>, c: Cluster)
    ensures Ports(cs + [c]) == Ports(cs) + (if PortOf(c.server).Some? then {PortOf(c.server).value} else {})
  {
    assert forall d :: d in cs + [c] <==> d in cs || d == c;
  }

  /** A port is in use exactly when some live entry's server is the localhost prefix followed by that port's text. */
  lemma PortsMeaning(cs: seq<Cluster>, p: int)
    ensures p in Ports(cs) <==> exists j :: 0 <= j < |cs| && PortOf(cs[j].server) == Some(p)
  {
    if p in Ports(cs) {
      var c :| c in cs && PortOf(c.server) == Some(p);
      var j :| 0 <= j < |cs| && cs[j] == c;
    }
  }

  // ---------------------------------------------------------------------------
  // The registry, updated in place
  // ---------------------------------------------------------------------------

  class Kubeconfig {
    /** The `clusters` list of the merged kubeconfig, in file order. */
    var clusters: seq<Cluster>

    constructor(cs: seq<Cluster>)
      ensures clusters == cs
    {
      clusters := cs;
    }

    /** `ContextForPort`: scan in order and return the first live entry's name. */
    method ContextForPort(port: int) returns (name: string)
      ensures name == ContextOf(clusters, port)
    {
      var target := ServerFor(port);
      var i := 0;
      while i < |clusters|
        invariant 0 <= i <= |clusters|
        invariant FirstServingFrom(clusters, port, i) == FirstServing(clusters, port)
      {
        var server := clusters[i].server;
        if HasPrefix(server, InactivePrefix) {
          i := i + 1;
          continue;
        }
        if server == target {
          return clusters[i].name;
        }
        i := i + 1;
      }
      return "";
    }

    /** `MarkPortInactive`: retire, in place, every entry whose server is exactly the port's. */
    method MarkPortInactive(port: int)
      modifies this
      ensures clusters == MarkPort(old(clusters), port)
    {
      var target := ServerFor(port);
      var i := 0;
      while i < |clusters|
        invariant 0 <= i <= |clusters| == |old(clusters)|
        invariant forall j :: 0 <= j < i ==> clusters[j] == MarkPort(old(clusters), port)[j]
        invariant forall j :: i <= j < |clusters| ==> clusters[j] == old(clusters)[j]
      {
        if clusters[i].server == target {
          clusters := clusters[i := Inactivated(clusters[i])];
        }
        i := i + 1;
      }
    }

    /** `MarkAllLocalhostInactive`: retire, in place, every entry on a localhost server. */
    method MarkAllLocalhostInactive()
      modifies this
      ensures clusters == MarkAll(old(clusters))
    {
      var i := 0;
      while i < |clusters|
        invariant 0 <= i <= |clusters| == |old(clusters)|
        invariant forall j :: 0 <= j < i ==> clusters[j] == MarkAll(old(clusters))[j]
        invariant forall j :: i <= j < |clusters| ==> clusters[j] == old(clusters)[j]
      {
        if HasPrefix(clusters[i].server, LocalhostPrefix) {
          clusters := clusters[i := Inactivated(clusters[i])];
        }
        i := i + 1;
      }
    }

    /** `PortsInUse`: collect the port of every live localhost entry whose suffix parses. */
    method PortsInUse() returns (ports: set<int>)
      ensures ports == Ports(clusters)
    {
      ports := {};
      var i := 0;
      while i < |clusters|
        invariant 0 <= i <= |clusters|
        invariant ports == Ports(clusters[..i])
      {
        var server := clusters[i].server;
        assert clusters[..i + 1] == clusters[..i] + [clusters[i]];
        PortsSnoc(clusters[..i], clusters[i]);
        if HasPrefix(server, InactivePrefix) {
          i := i + 1;
          continue;
        }
        if HasPrefix(server, LocalhostPrefix) {
          var portText := TrimPrefix(server, LocalhostPrefix);
          var p := Atoi(portText);
          if p.Some? {
            ports := ports + {p.value};
          }
        }
        i := i + 1;
      }
      assert clusters[..i] == clusters;
    }
  }

  // ---------------------------------------------------------------------------
  // What retiring does to the lookups
  // ---------------------------------------------------------------------------

  /** After `MarkPortInactive(port)`, `ContextForPort(port)` finds nothing. */
  lemma MarkPortClears(cs: seq<Cluster>, port: int)
    ensures FirstServing(MarkPort(cs, port), port).None?
    ensures ContextOf(MarkPort(cs, port), port) == ""
  {
    var ms := MarkPort(cs, port);
    forall j | 0 <= j < |ms| ensures !Serves(ms[j], port) {
      if cs[j].server == ServerFor(port) {
        InactivatedIsInactive(cs[j]);
      }
    }
  }

  /** Printed ports of different numbers differ. */
  lemma ServerForInjective(p: int, q: int)
    requires MinInt <= p <= MaxInt && MinInt <= q <= MaxInt
    requires ServerFor(p) == ServerFor(q)
    ensures p == q
  {
    assert TrimPrefix(ServerFor(p), LocalhostPrefix) == IntToString(p);
    assert TrimPrefix(ServerFor(q), LocalhostPrefix) == IntToString(q);
    AtoiIntToString(p);
    AtoiIntToString(q);
  }

  /** `MarkPortInactive(port)` does not change which entry another port's lookup finds. */
  lemma MarkPortKeepsOthers(cs: seq<Cluster>, port: int, other: int)
    requires MinInt <= port <= MaxInt && MinInt <= other <= MaxInt && port != other
    ensures FirstServing(MarkPort(cs, port), other) == FirstServing(cs, other)
    ensures ContextOf(MarkPort(cs, port), other) == ContextOf(cs, other)
  {
    var ms := MarkPort(cs, port);
    forall j | 0 <= j < |cs| ensures Serves(ms[j], other) == Serves(cs[j], other) {
      if cs[j].server == ServerFor(port) {
        InactivatedIsInactive(cs[j]);
        if ServerFor(port) == ServerFor(other) {
          ServerForInjective(port, other);
        }
      }
    }
    FirstServingSame(cs, ms, other, 0);
  }

  /** Two lists whose entries serve `port` alike find the same first entry. */
  lemma FirstServingSame(cs: seq<Cluster>, ds: seq<Cluster>, port: int, from: nat)
    requires |cs| == |ds|
    requires forall j :: 0 <= j < |cs| ==> Serves(ds[j], port) == Serves(cs[j], port)
    ensures FirstServingFrom(ds, port, from) == FirstServingFrom(cs, port, from)
  {
    var a, b := FirstServingFrom(cs, port, from), FirstServingFrom(ds, port, from);
    if a.Some? {
      assert Serves(ds[a.value], port);
    }
    if b.Some? {
      assert Serves(cs[b.value], port);
    }
    if a.Some? && b.Some? {
      var i, k := a.value, b.value;
      assert Serves(ds[i], port) == Serves(cs[i], port);
      assert Serves(ds[k], port) == Serves(cs[k], port);
      assert !(i < k) && !(k < i);
    }
  }

  /** A retired entry reserves no port. */
  lemma InactivatedNoPort(c: Cluster)
    ensures PortOf(Inactivated(c).server).None?
  {
    InactivatedIsInactive(c);
  }

  /** One entry after `MarkAllLocalhostInactive` reserves no port and serves none. */
  lemma MarkAllEntry(c: Cluster, port: int)
    ensures var m := if HasPrefix(c.server, LocalhostPrefix) then Inactivated(c) else c;
      PortOf(m.server).None? && !Serves(m, port)
  {
    if HasPrefix(c.server, LocalhostPrefix) {
      InactivatedNoPort(c);
    } else {
      assert ServerFor(port)[..|LocalhostPrefix|] == LocalhostPrefix;
    }
  }

  /** After `MarkAllLocalhostInactive`, no port is in use and no port's lookup finds an entry. */
  lemma MarkAllClears(cs: seq<Cluster>, port: int)
    ensures Ports(MarkAll(cs)) == {}
    ensures FirstServing(MarkAll(cs), port).None?
  {
    var ms := MarkAll(cs);
    forall j | 0 <= j < |ms| ensures PortOf(ms[j].server).None? && !Serves(ms[j], port) {
      MarkAllEntry(cs[j], port);
    }
    forall p | p in Ports(ms) ensures false {
      PortsMeaning(ms, p);
    }
  }

  // ---------------------------------------------------------------------------
  // SetClusterSSM and the commands it runs
  // ---------------------------------------------------------------------------

  /** `arnUser`: the EKS cluster ARN used as the credentials entry's name. */
  function ArnUser(region: string, accountID: string, clusterName: string): string {
    "arn:aws:eks:" + region + ":" + accountID + ":cluster/" + clusterName
  }

  /** The ARN reads back as its six colon-separated fields when the parts hold no ':'. */
  lemma ArnUserFields(region: string, accountID: string, clusterName: string)
    requires ':' !in region && ':' !in accountID && ':' !in clusterName
    ensures SplitOn(ArnUser(region, accountID, clusterName), ':')
      == ["arn", "aws", "eks", region, accountID, "cluster/" + clusterName]
  {
    var ws := ["arn", "aws", "eks", region, accountID, "cluster/" + clusterName];
    assert ':' !in "cluster/" + clusterName by {
      assert forall i :: 0 <= i < 8 ==> ("cluster/" + clusterName)[i] == "cluster/"[i];
    }
    ArnJoin(region, accountID, clusterName);
    SplitOnJoin(ws, ':');
  }

  /** The ARN is its six fields joined by ':'. */
  lemma ArnJoin(region: string, accountID: string, clusterName: string)
    ensures Join(["arn", "aws", "eks", region, accountID, "cluster/" + clusterName], [':'])
      == ArnUser(region, accountID, clusterName)
  {
    var ws := ["arn", "aws", "eks", region, accountID, "cluster/" + clusterName];
    var sep := [':'];
    var fields := region + sep + (accountID + sep + ("cluster/" + clusterName));
    assert Join(ws[5..], sep) == "cluster/" + clusterName;
    assert Join(ws[4..], sep) == accountID + sep + Join(ws[5..], sep);
    assert Join(ws[3..], sep) == fields;
    assert Join(ws[2..], sep) == "eks" + sep + fields;
    assert Join(ws[1..], sep) == "aws" + sep + ("eks" + sep + fields);
    assert Join(ws, sep) == "arn" + sep + ("aws" + sep + ("eks" + sep + fields));
    assert "arn" + sep + ("aws" + sep + ("eks" + sep + fields)) == "arn:aws:eks:" + fields;
    assert ":cluster/" + clusterName == sep + ("cluster/" + clusterName);
  }

  /** The exec plugin's command: fetch an EKS token for the cluster in the region. */
  function TokenCommand(region: string, clusterName: string): string {
    "aws --region " + region + " eks get-token --cluster-name " + clusterName
  }

  /** `kubectlCommands`: set-cluster, the two set-credentials, set-context, use-context. */
  function KubectlCommands(contextName: string, userName: string, server: string,
                           clusterName: string, region: string, profile: string): (cmds: seq<seq<string>>)
    ensures |cmds| == 5
    ensures forall i :: 0 <= i < 5 ==> |cmds[i]| >= 4 && cmds[i][0] == "kubectl" && cmds[i][1] == "config"
    ensures cmds[0][2] == "set-cluster" && cmds[1][2] == "set-credentials" && cmds[2][2] == "set-credentials"
    ensures cmds[3][2] == "set-context" && cmds[4][2] == "use-context"
    ensures cmds[0][3] == contextName && cmds[3][3] == contextName && cmds[4][3] == contextName
    ensures cmds[1][3] == userName && cmds[2][3] == userName
    ensures |cmds[0]| == 6 && cmds[0][4] == "--server=" + server
    ensures |cmds[3]| == 8 && cmds[3][5] == contextName && cmds[3][7] == userName
    ensures cmds[4] == UseContextCommand(contextName)
  {
    [["kubectl", "config", "set-cluster", contextName,
      "--server=" + server,
      "--insecure-skip-tls-verify=true"],
     ["kubectl", "config", "set-credentials", userName,
      "--exec-command", "assume",
      "--exec-api-version", "client.authentication.k8s.io/v1beta1",
      "--exec-arg", profile,
      "--exec-arg", "--exec",
      "--exec-arg", TokenCommand(region, clusterName)],
     ["kubectl", "config", "set-credentials", userName,
      "--exec-env", "GRANTED_QUIET=true",
      "--exec-env", "FORCE_NO_ALIAS=true"],
     ["kubectl", "config", "set-context", contextName,
      "--cluster", contextName,
      "--user", userName],
     ["kubectl", "config", "use-context", contextName]]
  }

  /**
   * The flags of the set-up commands: the cluster skips TLS verification, the
   * user authenticates through `assume PROFILE --exec "aws --region R eks
   * get-token --cluster-name C"`, the plugin runs quietly and without alias,
   * and the context joins the cluster and the user.
   */
  lemma KubectlCommandsFlags(contextName: string, userName: string, server: string,
                             clusterName: string, region: string, profile: string)
    ensures var cmds := KubectlCommands(contextName, userName, server, clusterName, region, profile);
      && cmds[0][5] == "--insecure-skip-tls-verify=true"
      && |cmds[1]| == 14 && cmds[1][4] == "--exec-command" && cmds[1][5] == "assume"
      && cmds[1][6] == "--exec-api-version" && cmds[1][7] == "client.authentication.k8s.io/v1beta1"
      && cmds[1][8] == "--exec-arg" && cmds[1][9] == profile
      && cmds[1][10] == "--exec-arg" && cmds[1][11] == "--exec"
      && cmds[1][12] == "--exec-arg" && cmds[1][13] == TokenCommand(region, clusterName)
      && cmds[2][4..] == ["--exec-env", "GRANTED_QUIET=true", "--exec-env", "FORCE_NO_ALIAS=true"]
      && cmds[3][4] == "--cluster" && cmds[3][6] == "--user"
  {
  }

  /** The command that makes `contextName` the current context. */
  function UseContextCommand(contextName: string): seq<string> {
    ["kubectl", "config", "use-context", contextName]
  }

  /** The commands `SetClusterSSM` runs for the tunnel on `port`. */
  function SetClusterSSMCommands(contextName: string, clusterName: string, region: string,
                                 profile: string, accountID: string, port: int): seq<seq<string>> {
    KubectlCommands(contextName, ArnUser(region, accountID, clusterName), ServerFor(port),
                    clusterName, region, profile)
  }

  /** The index of the first command whose run fails. */
  function FirstFailing(cmds: seq<seq<string>>, run: seq<string> -> Option<string>, from: nat): (r: Option<nat>)
    ensures r.Some? ==> from <= r.value < |cmds| && run(cmds[r.value]).Some?
    ensures r.Some? ==> forall j :: from <= j < r.value ==> run(cmds[j]).None?
    ensures r.None? <==> forall j :: from <= j < |cmds| ==> run(cmds[j]).None?
    decreases |cmds| - from
  {
    if from >= |cmds| then None
    else if run(cmds[from]).Some? then Some(from)
    else FirstFailing(cmds, run, from + 1)
  }

  /** The error `runAll` ends with: the first failing command's, or none when all succeed. */
  function RunError(cmds: seq<seq<string>>, run: seq<string> -> Option<string>): (err: Option<string>)
    ensures err.None? <==> forall j :: 0 <= j < |cmds| ==> run(cmds[j]).None?
    ensures err.Some? ==>
      exists k :: 0 <= k < |cmds| && err == run(cmds[k]) && forall j :: 0 <= j < k ==> run(cmds[j]).None?
  {
    match FirstFailing(cmds, run, 0)
    case None => None
    case Some(k) => run(cmds[k])
  }

  /**
   * `runAll`: run the commands in order and stop at the first failure,
   * returning its error; `ran` is how many were started. `run(cmd)` is the
   * error a command ends with, or `None` when it succeeds.
   */
  method RunAll(cmds: seq<seq<string>>, run: seq<string> -> Option<string>) returns (err: Option<string>, ran: nat)
    requires forall i :: 0 <= i < |cmds| ==> |cmds[i]| >= 1
    ensures FirstFailing(cmds, run, 0).None? ==> err.None? && ran == |cmds|
    ensures FirstFailing(cmds, run, 0).Some? ==>
      var k := FirstFailing(cmds, run, 0).value;
      err == run(cmds[k]) && ran == k + 1
    ensures err == RunError(cmds, run)
  {
    ran := 0;
    while ran < |cmds|
      invariant 0 <= ran <= |cmds|
      invariant FirstFailing(cmds, run, ran) == FirstFailing(cmds, run, 0)
    {
      var e := run(cmds[ran]);
      ran := ran + 1;
      if e.Some? {
        return e, ran;
      }
    }
    return None, ran;
  }

  /** `SetClusterSSM`: point the context at the tunnel on `port` and switch to it. */
  method SetClusterSSM(contextName: string, clusterName: string, region: string, profile: string,
                       accountID: string, port: int, run: seq<string> -> Option<string>)
    returns (err: Option<string>)
    ensures var cmds := SetClusterSSMCommands(contextName, clusterName, region, profile, accountID, port);
      && (err.None? <==> forall j :: 0 <= j < |cmds| ==> run(cmds[j]).None?)
      && err == RunError(cmds, run)
  {
    var cmds := SetClusterSSMCommands(contextName, clusterName, region, profile, accountID, port);
    var ran;
    err, ran := RunAll(cmds, run);
  }

  /** `SetClusterDirect`: point the context at the cluster's own endpoint and switch to it. */
  method SetClusterDirect(contextName: string, clusterName: string, region: string, profile: string,
                          accountID: string, endpoint: string, run: seq<string> -> Option<string>)
    returns (err: Option<string>)
    ensures var cmds := KubectlCommands(contextName, ArnUser(region, accountID, clusterName), endpoint,
                                        clusterName, region, profile);
      && cmds[0][4] == "--server=" + endpoint
      && (err.None? <==> forall j :: 0 <= j < |cmds| ==> run(cmds[j]).None?)
      && err == RunError(cmds, run)
  {
    var cmds := KubectlCommands(contextName, ArnUser(region, accountID, clusterName), endpoint,
                                clusterName, region, profile);
    var ran;
    err, ran := RunAll(cmds, run);
  }

  /** `SwitchContext`: the same command that ends both set-ups, run on its own. */
  method SwitchContext(contextName: string, run: seq<string> -> Option<string>) returns (err: Option<string>)
    ensures forall userName, server, clusterName, region, profile ::
      err == run(KubectlCommands(contextName, userName, server, clusterName, region, profile)[4])
  {
    err := run(UseContextCommand(contextName));
  }

  /**
   * What `kubectl config set-cluster NAME --server=S` does to the list: the
   * entry named NAME gets server S, or a new entry is appended when there is none.
   */
  function SetServer(cs: seq<Cluster>, name: string, server: string): seq<Cluster> {
    if exists j :: 0 <= j < |cs| && cs[j].name == name then
      seq(|cs|, j requires 0 <= j < |cs| => if cs[j].name == name then Cluster(name, server) else cs[j])
    else cs + [Cluster(name, server)]
  }

  /** The server `SetClusterSSM` writes is reported back as the port by `PortsInUse`. */
  lemma ServerForPort(port: int)
    requires MinInt <= port <= MaxInt
    ensures PortOf(ServerFor(port)) == Some(port)
  {
    var s := ServerFor(port);
    assert s[..|LocalhostPrefix|] == LocalhostPrefix;
    assert TrimPrefix(s, LocalhostPrefix) == IntToString(port);
    assert s[..|InactivePrefix|] != InactivePrefix by {
      assert s[0] == 'h';
    }
    AtoiIntToString(port);
  }

  /**
   * The round trip through the registry: once the set-cluster command of
   * `SetClusterSSM` has taken effect, the port is in use and the port's
   * lookup finds an entry; it finds this context unless another live entry
   * comes first with the same server.
   */
  lemma SetClusterSSMRoundTrip(cs: seq<Cluster>, contextName: string, clusterName: string, region: string,
                               profile: string, accountID: string, port: int)
    requires MinInt <= port <= MaxInt
    ensures var cmd := SetClusterSSMCommands(contextName, clusterName, region, profile, accountID, port)[0];
      cmd[2] == "set-cluster" && cmd[3] == contextName && cmd[4] == "--server=" + ServerFor(port)
    ensures var ds := SetServer(cs, contextName, ServerFor(port));
      && port in Ports(ds)
      && FirstServing(ds, port).Some?
      && ((forall j :: 0 <= j < |cs| && cs[j].name != contextName ==> !Serves(cs[j], port))
          ==> ContextOf(ds, port) == contextName)
  {
    SetServerFound(cs, contextName, port);
  }

  /** A server set for `port` under `name` is found by the port's lookup and reported in use. */
  lemma SetServerFound(cs: seq<Cluster>, name: string, port: int)
    requires MinInt <= port <= MaxInt
    ensures var ds := SetServer(cs, name, ServerFor(port));
      && port in Ports(ds)
      && FirstServing(ds, port).Some?
      && ((forall j :: 0 <= j < |cs| && cs[j].name != name ==> !Serves(cs[j], port))
          ==> ContextOf(ds, port) == name)
  {
    var ds := SetServer(cs, name, ServerFor(port));
    ServerForPort(port);
    var k: nat;
    if exists j :: 0 <= j < |cs| && cs[j].name == name {
      k :| 0 <= k < |cs| && cs[k].name == name;
    } else {
      k := |cs|;
    }
    assert ds[k] == Cluster(name, ServerFor(port));
    assert ds[k] in ds;
    assert Serves(ds[k], port);
    var first := FirstServing(ds, port);
    assert first.Some?;
    if forall j :: 0 <= j < |cs| && cs[j].name != name ==> !Serves(cs[j], port) {
      assert ds[first.value].name == name;
    }
  }
}
