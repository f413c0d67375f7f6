# kube-ssm-proxy in Dafny

kube-ssm-proxy keeps AWS SSM port-forwarding tunnels to EKS clusters alive and
points kubectl at them. This project models the deterministic rules under its
I/O and proves properties about them:

- **Tunnel scanning and port allocation** (`process.dfy`). The filter and parser
  for `ps` lines, `extractParam`, the keep-first-live-per-port rule of
  `ListForwards`, and the upward scan of `FindAvailablePort`.
- **Tunnel lifecycle** (`ssm.dfy`):
  - the line-buffering, time-stamping log writer;
  - `StartForward`: port, marker callback, log, launch, and the 60-attempt poll;
  - `killProcess`, `StopAll`, and `PruneDuplicates`, which groups forwards by
    target host and kills all but the first of each group;
  - log retention.
- **The kubeconfig registry** (`kubeconfig.dfy`):
  - the cluster list as a `Kubeconfig` object;
  - lookup by port, marking entries inactive, and ports in use;
  - the five kubectl commands of a cluster set-up and the stop-at-first-failure
    runner.
- **Configuration** (`config.dfy`). Per-cluster validation and `LoadClusters`'
  first-error-wins loop over an array.
- **Cluster selection** (`selector.dfy`). Menu lines, matching a picked line
  back to its cluster, headless selection, and the picker loop.
- **AWS helpers** (`aws.dfy`):
  - role-name extraction from a caller ARN;
  - the login hint of `AuthError`;
  - the single-bastion decision of `FindBastion`.

`text.dfy` models the Go string functions the code relies on:
- `strings.Index`, `Fields`, `Join`, `Split` and `TrimSpace`;
- `strconv.Atoi` on 64-bit integers;
- decimal printing;
- `%q` for printable text;
- UTF-8 byte length.

`wrappers.dfy` holds `Option` and `Result`.

Outside effects become inputs:

| Outside effect | Input in the model |
|---|---|
| TCP probe | `listening: int -> bool` |
| `ps` output | `Result<string, string>` |
| signals | `kill: int -> KillOutcome` |
| `StartForward`'s view of the world | a `World` value (file and launch failures, pid, per-attempt readiness and exit, log content, clock readings) |
| each kubectl run | `run: seq<string> -> Option<string>`; `Some` is the error |
| the decoded config file | `Result<ConfigFile, string>` |
| the picker's successive outputs | `seq<Option<string>>` |
| the STS output | `StsOutput` |
| the EC2 reservations | `seq<seq<Option<string>>>` |
| log-file removal during cleanup | `removeFails: string -> bool` |

Behaviour of the code worth noting:
- a `ps` line's pid may be any integer `strconv.Atoi` accepts, including zero and negative values;
- the kill option read from the picker is compared after `TrimSpace`;
- the headless selection is compared untrimmed.

## Model

| member | source | states |
|---|---|---|
| Process.ParamValue | internal/ssm/process.go:103-117 | The value is "" when the key is absent. Otherwise it is the text right after the key's first occurrence, runs up to the first ',' or ' ' or the end, and holds no delimiter. |
| Process.ExtractParam | internal/ssm/process.go:103-117 | The index loop that looks for the value's end returns exactly `ParamValue`. |
| Process.ParamValueAtStart | internal/ssm/process.go:103-117 | A string that starts with the key, then a delimiter-free value and then a delimiter or the end, yields that value. |
| Process.ParamValueAcross | internal/ssm/process.go:103-117 | A key that does not occur before a delimiter is looked up in the text after it. |
| Process.ParseLineMeaning | internal/ssm/process.go:62-99 | A line is rejected iff it has fewer than two fields, its pid field is no integer, `host=` is empty, or `localPortNumber=` is no integer. An accepted line carries those values. The target port is `portNumber=`'s value when it parses and 443 otherwise. |
| Process.CandidateSound | internal/ssm/process.go:37-47 | A candidate comes from a line holding all four markers ("aws", "ssm", "start-session", "AWS-StartPortForwardingSession") that parses. |
| Process.KeptLast | internal/ssm/process.go:44-54 | A line is kept exactly when it is live (parsed, port listening) and its local port was not kept before it. |
| Process.KeepIndices | internal/ssm/process.go:32-57 | The kept forwards are the candidates of exactly those lines that are live and not preceded by a live line with the same local port, in line order. |
| Process.KeepPorts | internal/ssm/process.go:32-57 | The kept local ports are exactly those of the live lines. |
| Process.KeepDistinctPorts | internal/ssm/process.go:48-55 | No two kept forwards share a local port. |
| Process.KeepSound | internal/ssm/process.go:44-55 | Every kept forward is some line's candidate, and its local port is listening. |
| Process.ScanLine | internal/ssm/process.go:33-55 | One loop step appends the line's candidate exactly when it is live and its port is new. The seen-ports set stays equal to the kept forwards' ports. |
| Process.KeepLines | internal/ssm/process.go:32-56 | The loop over the lines computes `Keep` of the lines' candidates. |
| Process.ListForwards | internal/ssm/process.go:23-58 | A `ps` failure is an error. Otherwise the result is the kept forwards of the output's lines. |
| Process.FreeFrom | internal/ssm/process.go:123-130 | Gives the smallest port from `from` to 65535 that is neither reserved nor listening, or none iff all are taken. |
| Process.LowestFree | internal/ssm/process.go:122-132 | Gives the lowest free port of 49152..65535, or none iff every port there is reserved or listening. |
| Process.LowestFreeUnique | internal/ssm/process.go:119-123 | At most one port is the lowest free one. |
| Process.FindAvailablePort | internal/ssm/process.go:122-132 | Success returns the lowest port in range that is neither reserved nor listening. It fails, with the range message, iff there is none. |
| Ssm.LinesLoseNothing | internal/ssm/ssm.go:23-33 | The complete lines, each followed by '\n', then the buffered partial line, are exactly the input. |
| Ssm.LinesOfUnlines | internal/ssm/ssm.go:26-33 | Lines without '\n', each ended by one and followed by a partial line, split back into the same lines and partial line. |
| Ssm.LinesConcat | internal/ssm/ssm.go:23-32 | Appending text completes lines only from the pending partial line onwards; earlier complete lines are unchanged. |
| Ssm.PendingConcat | internal/ssm/ssm.go:23-32 | The partial line after appending depends only on the earlier partial line. |
| Ssm.RenderLines | internal/ssm/ssm.go:31-39 | Read back line by line, the log holds each written line stamped "[ts] [ssm] ", in order, with nothing left over. |
| Ssm.WriteTwice | internal/ssm/ssm.go:22-42 | Two writes with the same stamp leave the same log and buffer as one write of the joined data. |
| Ssm.TimestampWriter.constructor | internal/ssm/ssm.go:92 | The writer starts with an empty log and an empty buffer. |
| Ssm.TimestampWriter.Write | internal/ssm/ssm.go:22-42 | Returns `len(p)`. Every complete non-empty line of buffer+p is appended stamped, the rest stays buffered, and the buffer never holds '\n'. |
| Ssm.SessionArguments | internal/ssm/ssm.go:69-77 | In the launch arguments, `host=`, `portNumber=` and `localPortNumber=` read back as the host, "443" and the printed local port. |
| Ssm.ParseSessionLine | internal/ssm/process.go:62-99 | A process line made of a pid and arguments that carry the session's parameter string parses to that pid, local port and host, with target port 443. |
| Ssm.LaunchedLineListed | internal/ssm/ssm.go:66-79 | Round trip: the process line of a session that `StartForward` launches passes `ListForwards`' marker filter and parses back to its pid, port and host. |
| Ssm.PollUntilReady | internal/ssm/ssm.go:117-139 | Stops at the first attempt (of at most 60) where the port is ready or else the process has exited. Ready wins over exit within an attempt. A timeout means 60 quiet attempts. |
| Ssm.PollDecided | internal/ssm/ssm.go:117-139 | The poll's outcome is fixed by the world: ready at the first attempt where the port is ready with nothing before it, exited at the first attempt where only the exit is seen, timed out after 60 quiet attempts. |
| Ssm.AwaitSession | internal/ssm/ssm.go:117-143 | Once launched: the result is the port iff the port becomes ready first, "died" with the pid and log iff the process exits first, and "not listening" with the port and log iff all 60 attempts are quiet. |
| Ssm.StartForward | internal/ssm/ssm.go:51-143 | No port available iff every port is taken, with no effects. The effects are, in order: marking the port, creating the log, writing the header, launching `aws` with the session arguments; on a failure they stop there, and a launch failure closes the log. After a successful launch on the lowest free port, the result is that port iff it becomes ready before the process exits, "died" iff the process exits first, and "not listening" iff all 60 attempts are quiet. |
| Ssm.KillProcess | internal/ssm/ssm.go:225-237 | True iff the process is found and SIGTERM is delivered. In that case SIGTERM then SIGKILL are sent. |
| Ssm.KillEach | internal/ssm/ssm.go:153-159 | Counts exactly the forwards whose kill succeeds. |
| Ssm.CountKilledAll | internal/ssm/ssm.go:153-159 | The count is the list's length when every kill succeeds and 0 when none does. |
| Ssm.StopAll | internal/ssm/ssm.go:147-160 | A failed listing kills nothing. Otherwise the count is the number of listed forwards whose kill succeeds. |
| Ssm.GroupStep | internal/ssm/ssm.go:171-173 | One append keeps every group equal to the forwards to its host, in order. |
| Ssm.Group | internal/ssm/ssm.go:170-173 | The map's keys are the target hosts. Each group holds the forwards to that host, in scan order. |
| Ssm.KillDuplicates | internal/ssm/ssm.go:177-186 | In a group, counts the successful kills among all but the first forward. |
| Ssm.DropsOfHost | internal/ssm/ssm.go:175-187 | Visiting distinct groups drops exactly the tail of each visited group and nothing of the others. |
| Ssm.DropsLength | internal/ssm/ssm.go:175-187 | The visited groups lose one forward each, whatever the visiting order. |
| Ssm.PruneDone | internal/ssm/ssm.go:175-188 | Once all groups are visited, each host keeps its first forward only, and |fs| − |hosts| forwards are dropped. |
| Ssm.VisitStep | internal/ssm/ssm.go:175-188 | Visiting one more unvisited host keeps every host visited at most once and drops the tail of that host's group. |
| Ssm.VisitGroups | internal/ssm/ssm.go:175-187 | The loop over the map visits every target host exactly once, in some order, and the total counts the successful kills among all but the first forward of each visited group. |
| Ssm.PruneGroups | internal/ssm/ssm.go:175-188 | For any visiting order, the kills attempted are exactly every forward but the first of its host, and the total counts their successes. |
| Ssm.PruneDuplicates | internal/ssm/ssm.go:164-189 | A failed listing does nothing. Otherwise, for any visiting order, exactly the non-first forwards of each target host have a kill attempted (|fs| − |hosts| of them), and the total counts the ones that succeed. |
| Ssm.Retained | internal/ssm/ssm.go:199-211 | An entry survives iff it is a directory, has no readable time, is not older than the cutoff, or its removal fails. Survivors are unchanged. |
| Ssm.RetainedIdempotent | internal/ssm/ssm.go:193-211 | A second clean with the same cutoff and the same failing removals removes nothing. |
| Ssm.RetainedAllRemoved | internal/ssm/ssm.go:199-209 | When every removal succeeds, exactly the entries that have not expired survive. |
| Ssm.LogDir.CleanOldLogs | internal/ssm/ssm.go:193-212 | An unreadable directory is left unchanged. Otherwise exactly the files modified more than 24 hours before now whose removal succeeds are removed; a failed removal is ignored and leaves its file. |
| Kubeconfig.FirstServingFrom | internal/kubeconfig/kubeconfig.go:51-63 | Gives the first entry that is not inactive and whose server is `https://localhost:PORT`. |
| Kubeconfig.Kubeconfig.ContextForPort | internal/kubeconfig/kubeconfig.go:42-65 | Returns the name of the first live entry serving the port, or "". |
| Kubeconfig.Kubeconfig.MarkPortInactive | internal/kubeconfig/kubeconfig.go:69-89 | Every entry whose server is the port's URL gets "# INACTIVE: " prepended. All other entries are unchanged. |
| Kubeconfig.MarkPortClears | internal/kubeconfig/kubeconfig.go:67-89 | After marking, no live entry serves the port, and the port's lookup gives "". |
| Kubeconfig.MarkPortKeepsOthers | internal/kubeconfig/kubeconfig.go:75-88 | Marking one port leaves the lookup of every other port unchanged. |
| Kubeconfig.ServerForInjective | internal/kubeconfig/kubeconfig.go:48 | Different ports have different server URLs. |
| Kubeconfig.Kubeconfig.MarkAllLocalhostInactive | internal/kubeconfig/kubeconfig.go:92-111 | Every entry whose server starts with "https://localhost:" is prefixed as inactive. The others are unchanged. |
| Kubeconfig.MarkAllClears | internal/kubeconfig/kubeconfig.go:91-111 | Afterwards no port is in use and no port's lookup finds an entry. |
| Kubeconfig.Kubeconfig.PortsInUse | internal/kubeconfig/kubeconfig.go:116-140 | Returns the ports parsed from the live localhost servers. |
| Kubeconfig.PortsMeaning | internal/kubeconfig/kubeconfig.go:123-138 | A port is in use iff some entry's server is live (no "# INACTIVE:" prefix) and is "https://localhost:" followed by text that `Atoi` reads as the port. |
| Kubeconfig.ServerForPort | internal/kubeconfig/kubeconfig.go:132-136 | The server URL written for a port parses back to that port, and it is not inactive. |
| Kubeconfig.ArnUserFields | internal/kubeconfig/kubeconfig.go:144-146 | The user ARN splits on ':' into "arn", "aws", "eks", region, account and "cluster/NAME" when the parts hold no ':'. |
| Kubeconfig.KubectlCommands | internal/kubeconfig/kubeconfig.go:148-172 | Exactly five `kubectl config` commands, in order: set-cluster (with `--server=`+server), set-credentials twice, set-context, use-context. Each names the context or user, and set-context binds the context to the same cluster and user. |
| Kubeconfig.KubectlCommandsFlags | internal/kubeconfig/kubeconfig.go:150-168 | Set-cluster skips TLS verification. The first set-credentials installs the exec plugin `assume PROFILE --exec "aws --region R eks get-token --cluster-name C"` with API version v1beta1. The second sets GRANTED_QUIET and FORCE_NO_ALIAS. Set-context passes `--cluster` and `--user`. |
| Kubeconfig.FirstFailing | internal/kubeconfig/kubeconfig.go:174-181 | Gives the index of the first command whose run fails, or none iff all succeed. |
| Kubeconfig.RunError | internal/kubeconfig/kubeconfig.go:174-181 | The error `runAll` ends with is none iff every command succeeds, and otherwise the error of a failing command before which all succeeded. |
| Kubeconfig.RunAll | internal/kubeconfig/kubeconfig.go:174-181 | Runs the commands in order and stops at the first failure. It returns that failure's error (`RunError`) and has started exactly the commands up to it. |
| Kubeconfig.SetClusterSSM | internal/kubeconfig/kubeconfig.go:16-22 | Succeeds iff all five commands for server `https://localhost:PORT` succeed. An error is that of the first failing command (`RunError`). |
| Kubeconfig.SetClusterDirect | internal/kubeconfig/kubeconfig.go:28-33 | Same as SetClusterSSM with the cluster's endpoint as the server. |
| Kubeconfig.SwitchContext | internal/kubeconfig/kubeconfig.go:36-38 | Runs the same use-context command that ends both set-ups. |
| Kubeconfig.SetClusterSSMRoundTrip | internal/kubeconfig/kubeconfig.go:16-22 | Once set-cluster has taken effect, `PortsInUse` reports the port and `ContextForPort` finds an entry. That entry is this context unless another-named live entry already served the port. |
| Kubeconfig.SetServerFound | internal/kubeconfig/kubeconfig.go:151-153 | A server set for the port under a name is found by the port's lookup and reported in use. |
| Config.CheckCluster | internal/config/config.go:69-81 | Checks in order: missing name, invalid region (empty or shorter than 3 bytes), missing cluster_name, missing profile. Each error holds iff its condition holds and the earlier ones pass, and it carries the cluster's index. |
| Config.WithDefaults | internal/config/config.go:82-84 | An empty environment becomes "unknown". Nothing else changes. |
| Config.ValidateCluster | internal/config/config.go:69-86 | The error is `CheckCluster`'s. On success only this cluster's environment is defaulted. On failure the array is unchanged. |
| Config.FirstBad | internal/config/config.go:55-64 | Gives the lowest index whose cluster is invalid or reuses an earlier name, or none iff there is none. |
| Config.DuplicatedByNames | internal/config/config.go:54-63 | A cluster's name is in the set of names seen before index k iff some cluster before k has that name. |
| Config.LoadStep | internal/config/config.go:55-63 | A bad cluster is the first bad one from its index on; a good one passes the search on and adds its name to the names seen. |
| Config.ValidateAll | internal/config/config.go:54-64 | The in-place loop with its seen set reports the first bad cluster's error, or none; with no error every cluster has its environment defaulted and nothing else changed. |
| Config.LoadClusters | internal/config/config.go:34-67 | Returns `Loaded`: decode failure, "no clusters defined in PATH", the first bad cluster's error, or the defaulted clusters with the SSO settings. |
| Config.LoadedWellFormed | internal/config/config.go:54-66 | A successful load has at least one cluster, and all are complete, with an environment and pairwise distinct names. |
| Config.LoadedErrorIsFirst | internal/config/config.go:55-63 | A load fails iff some cluster is bad. The error names the lowest bad index, and a duplicate error carries the reused name. |
| Selector.BuildOptions | internal/selector/selector.go:93-107 | The kill option first, then one line per cluster in order: ● or ○ by activity, the name, and " 🌏" for direct connect. |
| Selector.FirstMatch | internal/selector/selector.go:75-91 | Gives the first cluster that the selection names in one of the five accepted forms, or none iff no cluster matches. |
| Selector.MatchCluster | internal/selector/selector.go:75-91 | The early-return loop returns `FirstMatch`. |
| Selector.IconSuffix | internal/selector/selector.go:78-86 | For names without glyphs, name+icon determines the name. |
| Selector.OptionLineMatches | internal/selector/selector.go:82-104 | A cluster's menu line matches that cluster. |
| Selector.OptionLineNamesOnly | internal/selector/selector.go:82-104 | A menu line matches no cluster of another glyph-free name. |
| Selector.MatchOptionLine | internal/selector/selector.go:75-107 | Round trip: with distinct glyph-free names, matching the menu line of cluster i returns cluster i. |
| Selector.HeadlessSelect | internal/selector/selector.go:30-41 | Gives kill-all iff the selection is "kill_all" or the kill option. Otherwise it gives the first matching cluster, or the error `HEADLESS MODE: no cluster matching "…"` iff none matches. |
| Selector.FzfStopsAtDecisive | internal/selector/selector.go:57-68 | A failed run cancels, the kill option kills all, a match picks; later runs do not matter. |
| Selector.FzfUnmatchedReprompts | internal/selector/selector.go:62-70 | An unmatched selection is as if it had not been made: the loop asks again. |
| Selector.FzfSkipsUndecided | internal/selector/selector.go:44-70 | Any number of undecided runs in front change nothing. |
| Selector.FzfDecides | internal/selector/selector.go:44-70 | A decisive run anywhere in the runs makes the loop decide. |
| Selector.FzfUndecidedIff | internal/selector/selector.go:44-70 | The loop reaches no decision iff no run is decisive. |
| Selector.FzfSelect | internal/selector/selector.go:43-71 | Returns the picker outcome for the runs. The menu shown is the kill option followed by each cluster's `OptionLine`, in order. |
| Selector.Select | internal/selector/selector.go:22-28 | A non-empty headless selection bypasses the picker. Otherwise the picker decides. |
| Aws.SegmentAfter | internal/aws/aws.go:157-168 | Gives the segment after the first occurrence of the marker, up to the next '/' or the end, or none iff the marker is absent. |
| Aws.ExtractRoleName | internal/aws/aws.go:156-170 | Gives the segment after the first "assumed-role/" when that occurs, otherwise after the first "role/", otherwise "". It never contains '/'. |
| Aws.AssumedRoleArnRoundTrip | internal/aws/aws.go:157-162 | For `arn:aws:sts::ACCOUNT:assumed-role/ROLE/SESSION`, gives back ROLE. |
| Aws.CallerIdentity | internal/aws/aws.go:129-154 | Succeeds iff the output decodes and yields a non-empty role, and then carries the account and role. Each failure has its message. |
| Aws.Authenticate | internal/aws/aws.go:27-37 | Fails iff the identity check fails, and then carries the profile and both SSO fields. |
| Aws.AuthenticatedRole | internal/aws/aws.go:145-148 | An authenticated caller's ARN contains "role/", and the role is a non-empty segment without '/'. |
| Aws.Error | internal/aws/aws.go:46-55 | The message opens with the quoted profile and ends "Then re-run this tool.". The hint uses the SSO start URL and region iff both are set, and `--profile` otherwise. |
| Aws.IdsOf | internal/aws/aws.go:109-113 | An id is collected iff some instance carries it, and there are no more ids than instances. |
| Aws.IdsMeaning | internal/aws/aws.go:108-114 | An id is collected iff some reservation has an instance with it. |
| Aws.IdsAppend | internal/aws/aws.go:108-114 | Ids are collected reservation by reservation, in order. |
| Aws.FindBastion | internal/aws/aws.go:86-125 | Config and listing failures pass through with their prefixes. It succeeds iff exactly one id is collected, and returns it. Zero ids gives "no bastion instance found in R"; more gives "expected 1 bastion in R, found N". |

## Left out

- **Operating-system and network calls are not executed.** This covers running `ps`, `aws`, `kubectl` and `fzf`, the TCP probe `IsPortListening`, file creation, reading and removal, signals, sleeps, and the exit-watching goroutine. Their outcomes are the inputs listed above.
- **Files not modelled:**
  - `main.go` is not part of this model.
  - `ssmLogDir` (internal/ssm/ssm.go:214-222) is not modelled; the log directory is the `LogDir` object.
  - `kubeconfigJSON` and `run` (internal/kubeconfig/kubeconfig.go:183-203) are not modelled. The registry is the list of (name, server) entries, and a failed `kubectl config view` behaves like an empty list.
  - `findConfigPath`, reading and YAML decoding (internal/config/config.go:35-48, 88-102) are one input. Its failure message becomes `Unreadable`.
- **Other operations left out:**
  - `DescribeCluster` (internal/aws/aws.go:58-82) is only SDK calls and a nil-endpoint check, so it is not modelled.
  - Logging (`log.Printf`), the headless banner and the poll spinner are left out.
- **Text is characters, not bytes:**
  - Strings are sequences of Unicode characters, not bytes. Byte length is modelled only where the code tests it (the region length).
  - `%q` is modelled for printable text: only '"' and '\' are escaped.
- Ssm.TimestampWriter.Write: one clock reading stamps every line of a call, whereas the code reads the clock per line. Write errors from the log file are not modelled.
- Ssm.StartForward:
  - Per-attempt readiness and exit are inputs, not probes and a channel.
  - The 2-second interval is not modelled.
  - On success the log file stays open, as in the code.
- Kubeconfig.Kubeconfig.MarkPortInactive: a failing `kubectl config set-cluster` is treated as applied. The code ignores its error.
- Kubeconfig.Kubeconfig.MarkAllLocalhostInactive: same treatment as MarkPortInactive.
- Kubeconfig.SetServer: `set-cluster` is modelled as updating the entries with that name, or appending one. This assumes kubeconfig's usual unique names.
- Kubeconfig.Kubeconfig.MarkPortInactive and Kubeconfig.Kubeconfig.MarkAllLocalhostInactive rewrite the matching entries by position. The code runs `kubectl config set-cluster NAME` (internal/kubeconfig/kubeconfig.go:83-84, 104-105), which rewrites every entry named NAME. The two agree only under the same unique-name assumption as SetServer. With duplicate names, an entry that shares a matching entry's name but serves another port would also be rewritten, and the model does not capture this.
- Ssm.PruneDuplicates: Go's map iteration order is any order the proof admits; the result holds for every order.
- Selector.FzfSelect: the code's unbounded re-prompt loop is bounded by the finite list of picker runs. The outcome is `None` when every run was re-prompted.
