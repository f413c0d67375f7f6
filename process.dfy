/**
 * Discovering live tunnel processes from the process table and allocating a
 * free local port (internal/ssm/process.go). The `ps` output and the TCP
 * connect probe are inputs: the probe is a predicate `listening` on ports.
 */
module Process {
  import opened Wrappers
  import opened Text

  /** One believed-live port-forwarding process. */
  datatype Forward = Forward(pid: int, localPort: int, targetHost: string, targetPort: int)

  const DefaultTargetPort: int := 443

  /** The ephemeral range the allocator scans, inclusive at both ends. */
  const FirstPort: int := 49152
  const LastPort: int := 65535

  const HostKey: string := "host="
  const PortKey: string := "portNumber="
  const LocalPortKey: string := "localPortNumber="

  const NoPortMessage: string := "no available port in range 49152-65535"

  // ---------------------------------------------------------------------------
  // extractParam
  // ---------------------------------------------------------------------------

  predicate IsDelimiter(c: char) {
    c == ',' || c == ' '
  }

  predicate NoDelimiter(s: string) {
    forall i :: 0 <= i < |s| ==> !IsDelimiter(s[i])
  }

  /** The longest prefix of `s` without ',' or ' '. */
  function UntilDelimiter(s: string): (v: string)
    ensures |v| <= |s| && v == s[..|v|] && NoDelimiter(v)
    ensures |v| == |s| || IsDelimiter(s[|v|])
  {
    if s == [] || IsDelimiter(s[0]) then [] else [s[0]] + UntilDelimiter(s[1..])
  }

  /**
   * The value of `key` in a comma- or space-separated parameter string: the
   * text after the first occurrence of `key`, up to the next ',' or ' ' or the
   * end; "" when `key` does not occur.
   */
  function ParamValue(s: string, key: string): (v: string)
    ensures IndexOf(s, key).None? ==> v == ""
    ensures IndexOf(s, key).Some? ==>
      var start := IndexOf(s, key).value + |key|;
      && start + |v| <= |s|
      && s[start..start + |v|] == v
      && (start + |v| == |s| || IsDelimiter(s[start + |v|]))
    ensures NoDelimiter(v)
  {
    match IndexOf(s, key)
    case None => ""
    case Some(i) => UntilDelimiter(s[i + |key|..])
  }

  /** A delimiter-free prefix that ends at a delimiter (or at the end) is the value. */
  lemma {:induction false} UntilDelimiterOf(v: string, rest: string)
    requires NoDelimiter(v)
    requires rest == [] || IsDelimiter(rest[0])
    ensures UntilDelimiter(v + rest) == v
  {
    if v == [] {
      assert v + rest == rest;
    } else {
      assert (v + rest)[1..] == v[1..] + rest;
      UntilDelimiterOf(v[1..], rest);
      assert v == [v[0]] + v[1..];
    }
  }

  /** The value of a key that does not occur before the first delimiter is found after it. */
  lemma ParamValueAcross(a: string, c: char, b: string, key: string)
    requires Absent(a, key) && IsDelimiter(c)
    requires forall i :: 0 <= i < |key| ==> !IsDelimiter(key[i])
    ensures ParamValue(a + [c] + b, key) == ParamValue(b, key)
  {
    assert c !in key;
    IndexAcross(a, c, b, key);
    var t := a + [c] + b;
    match IndexOf(b, key)
    case None =>
      assert IndexOf(t, key).None?;
      assert ParamValue(t, key) == "";
    case Some(k) =>
      var i := k + |a| + 1;
      assert t[i + |key|..] == b[k + |key|..];
      ParamValueFound(t, key, i);
      ParamValueFound(b, key, k);
  }

  lemma ParamValueFound(s: string, key: string, i: nat)
    requires IndexOf(s, key) == Some(i)
    ensures ParamValue(s, key) == UntilDelimiter(s[i + |key|..])
  {
  }

  /** A parameter string that starts with `key`. */
  lemma ParamValueAtStart(key: string, v: string, rest: string)
    requires NoDelimiter(v)
    requires rest == [] || IsDelimiter(rest[0])
    ensures ParamValue(key + v + rest, key) == v
  {
    var s := key + v + rest;
    IndexOfPrefix(s, key);
    assert s[|key|..] == v + rest;
    UntilDelimiterOf(v, rest);
  }

  /** `extractParam`: an index loop that finds the end of the value. */
  method ExtractParam(s: string, key: string) returns (v: string)
    ensures v == ParamValue(s, key)
  {
    var found := IndexOf(s, key);
    if found.None? {
      return "";
    }
    var start := found.value + |key|;
    var end := |s|;
    var i := start;
    while i < |s|
      invariant start <= i <= |s|
      invariant forall j :: start <= j < i ==> !IsDelimiter(s[j])
    {
      if s[i] == ',' || s[i] == ' ' {
        end := i;
        break;
      }
      i := i + 1;
    }
    v := s[start..end];
    assert s[start..] == v + s[end..];
    UntilDelimiterOf(v, s[end..]);
    ParamValueFound(s, key, found.value);
  }

  // ---------------------------------------------------------------------------
  // parseLine
  // ---------------------------------------------------------------------------

  /** The command line of a ps line with its first field (the pid) removed, re-joined by single spaces. */
  function Arguments(fields: seq<string>): string
    requires |fields| >= 1
  {
    Join(fields[1..], " ")
  }

  /**
   * `parseLine`: the pid is the first white-space field; `host=` and
   * `localPortNumber=` must have values and the local port must parse;
   * the target port falls back to 443 when `portNumber=` is missing or does
   * not parse.
   */
  function ParseLine(line: string): Option<Forward>
  {
    var fields := Fields(line);
    if |fields| < 2 then None
    else
      match Atoi(fields[0])
      case None => None
      case Some(pid) =>
        var rest := Arguments(fields);
        var host := ParamValue(rest, HostKey);
        var portStr := ParamValue(rest, PortKey);
        var localStr := ParamValue(rest, LocalPortKey);
        if host == "" || localStr == "" then None
        else
          match Atoi(localStr)
          case None => None
          case Some(localPort) =>
            var targetPort :=
              if portStr != "" && Atoi(portStr).Some? then Atoi(portStr).value else DefaultTargetPort;
            Some(Forward(pid, localPort, host, targetPort))
  }

  /**
   * What `parseLine` accepts and what it extracts: a line is rejected exactly
   * when it has fewer than two fields, its first field is not an integer,
   * the `host=` value is empty, or the `localPortNumber=` value is not an
   * integer; the target port falls back to 443.
   */
  lemma ParseLineMeaning(line: string)
    ensures ParseLine(line).Some? <==>
      var fields := Fields(line);
      && |fields| >= 2
      && Atoi(fields[0]).Some?
      && ParamValue(Arguments(fields), HostKey) != ""
      && Atoi(ParamValue(Arguments(fields), LocalPortKey)).Some?
    ensures ParseLine(line).Some? ==>
      var r := ParseLine(line).value;
      var fields := Fields(line);
      var portValue := Atoi(ParamValue(Arguments(fields), PortKey));
      && r.pid == Atoi(fields[0]).value
      && r.targetHost == ParamValue(Arguments(fields), HostKey)
      && r.localPort == Atoi(ParamValue(Arguments(fields), LocalPortKey)).value
      && r.targetPort == (if portValue.Some? then portValue.value else DefaultTargetPort)
    ensures ParseLine(line).Some? ==>
      ParseLine(line).value.targetHost != "" && NoDelimiter(ParseLine(line).value.targetHost)
  {
  }

  /** A line with a pid, a host and a local port whose remote port reads as 443. */
  lemma ParseLineFrom(line: string, pid: int, host: string, localPort: int)
    requires |Fields(line)| >= 2 && Atoi(Fields(line)[0]) == Some(pid)
    requires ParamValue(Arguments(Fields(line)), HostKey) == host && host != ""
    requires Atoi(ParamValue(Arguments(Fields(line)), LocalPortKey)) == Some(localPort)
    requires Atoi(ParamValue(Arguments(Fields(line)), PortKey)) == Some(DefaultTargetPort)
    ensures ParseLine(line) == Some(Forward(pid, localPort, host, DefaultTargetPort))
  {
  }

  // ---------------------------------------------------------------------------
  // ListForwards
  // ---------------------------------------------------------------------------

  /** The four markers of the tool's port-forwarding session; all must occur, in any order. */
  predicate IsSessionLine(line: string) {
    && Contains(line, "aws")
    && Contains(line, "ssm")
    && Contains(line, "start-session")
    && Contains(line, "AWS-StartPortForwardingSession")
  }

  /** What one line of ps output yields before the liveness and duplicate checks. */
  function Candidate(line: string): Option<Forward> {
    var t := TrimSpace(line);
    if t == "" || !IsSessionLine(t) then None else ParseLine(t)
  }

  /** The candidate of every line, in order. */
  function Candidates(lines: seq<string>): (cs: seq<Option<Forward>>)
    ensures |cs| == |lines|
    ensures forall j :: 0 <= j < |lines| ==> cs[j] == Candidate(lines[j])
  {
    seq(|lines|, j requires 0 <= j < |lines| => Candidate(lines[j]))
  }

  function LocalPorts(fs: seq<Forward>): set<int> {
    set f | f in fs :: f.localPort
  }

  lemma LocalPortsAppend(fs: seq<Forward>, f: Forward)
    ensures LocalPorts(fs + [f]) == LocalPorts(fs) + {f.localPort}
  {
    assert forall g :: g in fs + [f] <==> g in fs || g == f;
  }

  /** The forwards `ListForwards` keeps from the candidates, computed one line at a time. */
  function Keep(cands: seq<Option<Forward>>, listening: int -> bool): seq<Forward> {
    if cands == [] then []
    else
      Step(Keep(cands[..|cands| - 1], listening), cands[|cands| - 1], listening)
  }

  lemma KeepSnoc(cands: seq<Option<Forward>>, c: Option<Forward>, listening: int -> bool)
    ensures Keep(cands + [c], listening) == Step(Keep(cands, listening), c, listening)
  {
    assert (cands + [c])[..|cands|] == cands;
  }

  /** Keeping one more line of a prefix is one more `Step`. */
  lemma KeepPrefixStep(cands: seq<Option<Forward>>, i: nat, listening: int -> bool)
    requires i < |cands|
    ensures Keep(cands[..i + 1], listening) == Step(Keep(cands[..i], listening), cands[i], listening)
  {
    assert cands[..i + 1] == cands[..i] + [cands[i]];
    KeepSnoc(cands[..i], cands[i], listening);
  }

  /** One line's effect: a live candidate with a new local port is appended. */
  function Step(kept: seq<Forward>, c: Option<Forward>, listening: int -> bool): seq<Forward> {
    match c
    case None => kept
    case Some(f) =>
      if f.localPort in LocalPorts(kept) || !listening(f.localPort) then kept else kept + [f]
  }

  /** Line `j` yields a forward whose local port is listening. */
  predicate Live(cands: seq<Option<Forward>>, listening: int -> bool, j: nat) {
    j < |cands| && cands[j].Some? && listening(cands[j].value.localPort)
  }

  /** Line `j` is live and no earlier live line has the same local port. */
  ghost predicate Kept(cands: seq<Option<Forward>>, listening: int -> bool, j: nat) {
    && Live(cands, listening, j)
    && forall i: nat :: i < j && Live(cands, listening, i) ==>
         cands[i].value.localPort != cands[j].value.localPort
  }

  /** Dropping the last line changes neither liveness nor keeping of the earlier lines. */
  lemma LivePrefix(cands: seq<Option<Forward>>, listening: int -> bool)
    requires cands != []
    ensures var prefix := cands[..|cands| - 1];
      forall j: nat :: j < |prefix| ==>
        (Live(cands, listening, j) <==> Live(prefix, listening, j)) &&
        (Kept(cands, listening, j) <==> Kept(prefix, listening, j))
  {
    var prefix := cands[..|cands| - 1];
    assert forall j: nat :: j < |prefix| ==> cands[j] == prefix[j];
  }

  /** The local ports kept are exactly those of the live lines. */
  lemma {:induction false} KeepPorts(cands: seq<Option<Forward>>, listening: int -> bool, p: int)
    ensures p in LocalPorts(Keep(cands, listening)) <==>
      exists j: nat :: Live(cands, listening, j) && cands[j].value.localPort == p
  {
    if cands != [] {
      var n := |cands| - 1;
      var prefix := cands[..n];
      KeepPorts(prefix, listening, p);
      LivePrefix(cands, listening);
      var kept := Keep(prefix, listening);
      if cands[n].Some? && cands[n].value.localPort !in LocalPorts(kept) && listening(cands[n].value.localPort) {
        LocalPortsAppend(kept, cands[n].value);
      }
      if Live(cands, listening, n) && cands[n].value.localPort == p {
        assert p in LocalPorts(Keep(cands, listening)) by {
          if p !in LocalPorts(kept) {
            LocalPortsAppend(kept, cands[n].value);
          }
        }
      }
    }
  }

  /** The last line is kept exactly when it is live with a local port not kept before it. */
  lemma KeptLast(cands: seq<Option<Forward>>, listening: int -> bool)
    requires cands != []
    ensures var n := |cands| - 1;
      Kept(cands, listening, n) <==>
        Live(cands, listening, n) && cands[n].value.localPort !in LocalPorts(Keep(cands[..n], listening))
  {
    var n := |cands| - 1;
    var prefix := cands[..n];
    if Live(cands, listening, n) {
      var p := cands[n].value.localPort;
      KeepPorts(prefix, listening, p);
      LivePrefix(cands, listening);
      if p in LocalPorts(Keep(prefix, listening)) {
        var j: nat :| Live(prefix, listening, j) && prefix[j].value.localPort == p;
        assert j < n && Live(cands, listening, j) && cands[j].value.localPort == p;
      } else {
        forall i: nat | i < n && Live(cands, listening, i)
          ensures cands[i].value.localPort != p
        {
          assert Live(prefix, listening, i) && prefix[i].value.localPort == cands[i].value.localPort;
        }
      }
    }
  }

  /**
   * What `ListForwards` keeps, described without reference to `Keep`: the
   * forwards of exactly the kept lines, in line order.
   */
  lemma {:induction false} KeepIndices(cands: seq<Option<Forward>>, listening: int -> bool)
    returns (idx: seq<nat>)
    ensures |idx| == |Keep(cands, listening)|
    ensures forall k :: 0 <= k < |idx| ==> idx[k] < |cands|
    ensures forall k, m :: 0 <= k < m < |idx| ==> idx[k] < idx[m]
    ensures forall k :: 0 <= k < |idx| ==> cands[idx[k]] == Some(Keep(cands, listening)[k])
    ensures forall j: nat :: j < |cands| ==> (j in idx <==> Kept(cands, listening, j))
  {
    if cands == [] {
      return [];
    }
    var n := |cands| - 1;
    var prefix := cands[..n];
    var idx0 := KeepIndices(prefix, listening);
    var kept := Keep(prefix, listening);
    LivePrefix(cands, listening);
    KeptLast(cands, listening);
    assert Keep(cands, listening) == Step(kept, cands[n], listening);
    if Kept(cands, listening, n) {
      idx := idx0 + [n];
      assert Keep(cands, listening) == kept + [cands[n].value];
    } else {
      idx := idx0;
      assert Keep(cands, listening) == kept;
    }
    forall j: nat | j < |cands| ensures j in idx <==> Kept(cands, listening, j) {
      if j < n {
        assert j in idx <==> j in idx0;
      }
    }
  }

  /** At most one forward per local port. */
  lemma KeepDistinctPorts(cands: seq<Option<Forward>>, listening: int -> bool)
    ensures var fs := Keep(cands, listening);
      forall k, m :: 0 <= k < m < |fs| ==> fs[k].localPort != fs[m].localPort
  {
    var fs := Keep(cands, listening);
    var idx := KeepIndices(cands, listening);
    forall k, m | 0 <= k < m < |fs| ensures fs[k].localPort != fs[m].localPort {
      assert idx[k] < idx[m];
      assert idx[k] in idx && idx[m] in idx;
      assert Kept(cands, listening, idx[m]);
      assert Live(cands, listening, idx[k]);
    }
  }

  /** Every forward kept is some line's candidate, with a listening local port. */
  lemma KeepSound(cands: seq<Option<Forward>>, listening: int -> bool)
    ensures forall f :: f in Keep(cands, listening) ==>
      listening(f.localPort) && Some(f) in cands
  {
    var fs := Keep(cands, listening);
    var idx := KeepIndices(cands, listening);
    forall f | f in fs ensures listening(f.localPort) && Some(f) in cands {
      var k :| 0 <= k < |fs| && fs[k] == f;
      assert idx[k] in idx;
      assert Kept(cands, listening, idx[k]);
    }
  }

  /** A line's candidate is a session line that parses. */
  lemma CandidateSound(line: string)
    ensures Candidate(line).Some? ==>
      IsSessionLine(TrimSpace(line)) && ParseLine(TrimSpace(line)) == Candidate(line)
  {
  }

  /** `ListForwards`' whole result: ps failing is an error, otherwise the lines it keeps. */
  function Listed(psOutput: Result<string, string>, listening: int -> bool): Result<seq<Forward>, string> {
    match psOutput
    case Err(cause) => Err("ps: " + cause)
    case Ok(out) => Ok(Keep(Candidates(SplitOn(out, '\n')), listening))
  }

  /** One iteration of `ListForwards`' loop: the line's effect on the forwards kept so far. */
  method ScanLine(rawLine: string, kept: seq<Forward>, keptPorts: set<int>, listening: int -> bool)
    returns (forwards: seq<Forward>, seenPorts: set<int>)
    requires keptPorts == LocalPorts(kept)
    ensures forwards == Step(kept, Candidate(rawLine), listening)
    ensures seenPorts == LocalPorts(forwards)
  {
    forwards, seenPorts := kept, keptPorts;
    var line := TrimSpace(rawLine);
    if line != "" && IsSessionLine(line) {
      var parsed := ParseLine(line);
      if parsed.Some? {
        var f := parsed.value;
        if f.localPort !in seenPorts && listening(f.localPort) {
          LocalPortsAppend(forwards, f);
          seenPorts := seenPorts + {f.localPort};
          forwards := forwards + [f];
        }
      }
    }
  }

  /**
   * `ListForwards`: filter the lines of ps output, parse them, and keep the
   * first listening forward per local port.
   */
  method ListForwards(psOutput: Result<string, string>, listening: int -> bool)
    returns (r: Result<seq<Forward>, string>)
    ensures r == Listed(psOutput, listening)
  {
    if psOutput.Err? {
      return Err("ps: " + psOutput.error);
    }
    var forwards := KeepLines(SplitOn(psOutput.value, '\n'), listening);
    r := Ok(forwards);
  }

  /** The loop of `ListForwards` over the lines of ps output. */
  method KeepLines(lines: seq<string>, listening: int -> bool) returns (forwards: seq<Forward>)
    ensures forwards == Keep(Candidates(lines), listening)
  {
    ghost var cands := Candidates(lines);
    forwards := [];
    var seenPorts: set<int> := {};
    for i := 0 to |lines|
      invariant forwards == Keep(cands[..i], listening)
      invariant seenPorts == LocalPorts(forwards)
    {
      forwards, seenPorts := ScanLine(lines[i], forwards, seenPorts, listening);
      KeepPrefixStep(cands, i, listening);
    }
    assert cands[..|lines|] == cands;
  }

  // ---------------------------------------------------------------------------
  // FindAvailablePort
  // ---------------------------------------------------------------------------

  /** A port is unavailable when reserved or already accepting connections. */
  predicate Taken(p: int, reserved: set<int>, listening: int -> bool) {
    p in reserved || listening(p)
  }

  /** `p` is the smallest port of the range that is neither reserved nor listening. */
  ghost predicate IsLowestFree(p: int, reserved: set<int>, listening: int -> bool) {
    && FirstPort <= p <= LastPort
    && !Taken(p, reserved, listening)
    && forall q :: FirstPort <= q < p ==> Taken(q, reserved, listening)
  }

  ghost predicate AllTaken(reserved: set<int>, listening: int -> bool) {
    forall q :: FirstPort <= q <= LastPort ==> Taken(q, reserved, listening)
  }

  /** The smallest free port from `from` to the end of the range, if any. */
  function FreeFrom(from: int, reserved: set<int>, listening: int -> bool): (r: Option<int>)
    requires FirstPort <= from
    ensures r.Some? ==> from <= r.value <= LastPort && !Taken(r.value, reserved, listening)
    ensures r.Some? ==> forall q :: from <= q < r.value ==> Taken(q, reserved, listening)
    ensures r.None? <==> forall q :: from <= q <= LastPort ==> Taken(q, reserved, listening)
    decreases LastPort + 1 - from
  {
    if from > LastPort then None
    else if !Taken(from, reserved, listening) then Some(from)
    else FreeFrom(from + 1, reserved, listening)
  }

  /** The port `FindAvailablePort` allocates, if any. */
  function LowestFree(reserved: set<int>, listening: int -> bool): (r: Option<int>)
    ensures r.Some? ==> IsLowestFree(r.value, reserved, listening)
    ensures r.None? <==> AllTaken(reserved, listening)
  {
    FreeFrom(FirstPort, reserved, listening)
  }

  /** At most one port is the lowest free one. */
  lemma LowestFreeUnique(p: int, q: int, reserved: set<int>, listening: int -> bool)
    requires IsLowestFree(p, reserved, listening) && IsLowestFree(q, reserved, listening)
    ensures p == q
  {
  }

  /** `FindAvailablePort`: scan the range upwards for the first free port. */
  method FindAvailablePort(reserved: set<int>, listening: int -> bool) returns (r: Result<int, string>)
    ensures r.Ok? ==> IsLowestFree(r.value, reserved, listening)
    ensures r.Err? <==> AllTaken(reserved, listening)
    ensures r.Err? ==> r.error == NoPortMessage
    ensures r == (if LowestFree(reserved, listening).Some? then Ok(LowestFree(reserved, listening).value) else Err(NoPortMessage))
  {
    var port := FirstPort;
    while port <= LastPort
      invariant FirstPort <= port <= LastPort + 1
      invariant forall q :: FirstPort <= q < port ==> Taken(q, reserved, listening)
    {
      if port in reserved {
        port := port + 1;
        continue;
      }
      if !listening(port) {
        return Ok(port);
      }
      port := port + 1;
    }
    return Err(NoPortMessage);
  }
}
