# k8s-network-scan: coordinator and start gate in Dafny

This project models the two pieces of logic in k8s-network-scan.

**The coordinator, `kns-job`.** Its `main` does the following:
- reads its own pod and finds the image of its `kns-job` container;
- derives a child namespace name from the last `-`-separated token of the pod's generated name;
- creates, in a fixed order, the namespace, a role, a service account, a role binding, a `network-scan` service and a daemonset;
- labels the service with the scan start time. That time is the whole Unix seconds of the creation instant plus one minute, written with `%d`;
- on a normal return, deletes the namespace and polls a name-filtered List until the namespace is gone.

**The agent, `kns-pod`.** Its `main` does the following:
- checks that its injected name, namespace and address are all set;
- reads the `network-scan` service;
- parses the `kube-network-scan/start-time` label as a base-10 int64;
- refuses a start time before `now` or more than two minutes after it.

The model uses pure functions.

**The API server is an input.** A `Cluster` value holds what each call would return:
- the pod lookup;
- the create outcome for each kind of object;
- the instant the service is created;
- the outcome of the namespace deletion;
- the List outcomes the poll would see.

`Coordinator.RunJob` yields the calls the coordinator makes, in order, and how the process ends. A `log.Fatalf` ends the process at once and so skips the deferred deletion. The model keeps that behaviour: the teardown runs only after all six creates were accepted.

**The agent's checks.** They are lifted into `StartGate.Gate`, a function of the agent's environment, the service lookup and the clock reading. `StartGate.Gate` uses the corrected window check described under "## Findings"; `StartGate.GateAsWritten` is the check as the program runs it. Instants are integer nanoseconds; start times are whole seconds.

Modules:
- `Wrappers`: `Option` and `Result`.
- `Decimal`: Go's `%d` and `strconv.ParseInt(s, 10, 64)`.
- `Clock`: the nanosecond clock, the published start time, and the year-1 based int64 seconds that `time.Unix` stores.
- `GoStrings`: `strings.Split` on `-` and `strings.LastIndex`.
- `KubeApi`: the Kubernetes objects, the API calls made through the client, and their outcomes.
- `JobSpec`: the coordinator's helpers.
- `Teardown`: `deleteNamespace`.
- `Coordinator`: the kns-job `main`.
- `StartGate`: the kns-pod `main`.
- `Handoff`: lemmas that join the publisher and the reader.

## Model

| member | source | states |
|---|---|---|
| Decimal.FormatInt | cmd/kns-job/main.go:236 | The `%d` text is never empty and starts with `-` exactly for negative numbers. The rest is decimal digits. |
| Decimal.DigitsValueOfDigits | cmd/kns-job/main.go:236 | The digits written for a natural number denote that number. |
| Decimal.ParseInt64 | cmd/kns-pod/main.go:63-66 | An accepted label is an optional sign followed by one or more digits. Its value is an int64 whose magnitude is the number the digits denote, and it is negative only when the label starts with `-`. |
| Decimal.ParseInt64OfSignedDigits | cmd/kns-pod/main.go:63-66 | Every label made of no sign, `+` or `-` followed by one or more digits is accepted with the value it denotes when that value is an int64, and refused otherwise. |
| Decimal.ParseInt64RefusesOutOfRange | cmd/kns-pod/main.go:63-66 | The decimal text of any integer outside the int64 range is refused, also with a leading `+`. Examples are `-9223372036854775809` and `+9223372036854775808`. |
| Decimal.ParseInt64Rejects | cmd/kns-pod/main.go:63-66 | The parse refuses each of these: the empty label, a lone sign, a non-digit after the first character, a first character that is neither sign nor digit, and an optionally signed digit string whose value lies outside the int64 range. |
| Decimal.FormatParseRoundTrip | cmd/kns-pod/main.go:63 | For every int64, parsing the coordinator's `%d` text gives back that same number. |
| Clock.UnixSeconds | cmd/kns-job/main.go:231 | `Unix()` yields the whole second that contains the instant, rounding toward the past for negative instants too. |
| Clock.StartTimeFor | cmd/kns-job/main.go:231 | The published start time `s` is the whole second such that the creation instant lies in `[(s - 60) s, (s - 59) s)`. |
| Clock.Wrap64 | cmd/kns-pod/main.go:68 | For every integer, the result is an int64 congruent to the input modulo 2^64. An int64 is unchanged; a value up to 2^64 past the maximum drops by 2^64. |
| Clock.InternalSeconds | cmd/kns-pod/main.go:68 | `time.Unix(v, 0)` stores `v` plus the seconds from year 1 to 1970. This is exact up to `MaxInt64 - 62135596800` and wraps to a negative value above it. |
| GoStrings.LastIndex | cmd/kns-job/main.go:257 | The result is -1 or a position where the pattern occurs, and no occurrence starts after it. |
| GoStrings.SplitDash | cmd/kns-job/main.go:138 | Splitting on `-` gives at least one token, and no token contains `-`. |
| GoStrings.SplitJoinRoundTrip | cmd/kns-job/main.go:138 | Joining the tokens of the split with `-` gives back the original string. |
| GoStrings.LastDashTokenIsTail | cmd/kns-job/main.go:137-140 | The last token is a dash-free suffix of the name. It is either the whole name or preceded by a `-`. |
| GoStrings.LastDashTokenAfterLastIndex | cmd/kns-job/main.go:137-140 | The last token is the text after the last `-` of the name, or the whole name when it has no `-`. |
| JobSpec.SuffixOfGeneratedName | cmd/kns-job/main.go:137-140 | The suffix has no `-` and is a tail of the name. It is the whole name or follows a `-`. |
| JobSpec.ChildNamespace | cmd/kns-job/main.go:80 | The child namespace starts with `network-scan-` and is at most as long as that prefix plus the pod name. |
| JobSpec.ChildNamespaceEndsWithPodSuffix | cmd/kns-job/main.go:80 | After the `network-scan-` prefix, the namespace holds a dash-free tail of the pod name. That tail is the whole name or follows its last `-`. |
| JobSpec.ReplaceNameInImage | cmd/kns-job/main.go:256-262 | An image without `from` comes back unchanged. Otherwise the result is `|to| - |from|` longer than the image. |
| JobSpec.ReplaceOnlyLastOccurrence | cmd/kns-job/main.go:256-262 | Only the last occurrence is replaced. The text before and after it is kept, and every earlier occurrence that ends before it survives. |
| JobSpec.FirstNamed | cmd/kns-job/main.go:67-75 | The lookup returns the index of the first container with the name, or -1 when no container has it. |
| JobSpec.JobImage | cmd/kns-job/main.go:66-78 | There is no image exactly when no container is named `kns-job`. Otherwise the image is that of the first such container. |
| JobSpec.AgentImageRewritesLastToken | cmd/kns-job/main.go:116 | The image `kns-job:kns-job` becomes `kns-job:kns-pod`: the first `kns-job` is kept and the last one is rewritten. |
| JobSpec.AgentImageWithoutTokenUnchanged | cmd/kns-job/main.go:116 | Every image that does not mention `kns-job` is deployed to the agents as it is. |
| JobSpec.AgentImageOfPlainImage | cmd/kns-job/main.go:116 | An example: the image `scanner:v1` is deployed unchanged. |
| Teardown.Poll | cmd/kns-job/main.go:156-169 | The poll behaves as follows. Every List before the last one still showed the namespace. Success comes from a List with zero items. A List error ends the poll with that error. A timeout happens only when every List in the window still showed the namespace. |
| Teardown.PollConfirmsAtFirstEmptyList | cmd/kns-job/main.go:156-169 | The first zero-item List, with only non-empty Lists before it, ends the poll successfully after exactly that many calls. |
| Teardown.DeleteNamespace | cmd/kns-job/main.go:151-174 | A rejected delete returns its error after one call and does not poll. An accepted delete ends as the poll ends. Success means the last List returned zero items. Every call after the delete is a List of the same name. |
| Coordinator.Plan | cmd/kns-job/main.go:80-120 | The six objects come in the order namespace, role, service account, role binding, service, daemonset. All except the namespace live in it. The service carries the `%d` start time. The daemonset runs the agent image under the bound account. |
| Coordinator.Provision | cmd/kns-job/main.go:80-120 | The objects whose creates were issued are a prefix of the plan, and every create before the last was accepted. There is no failure exactly when every create was accepted. Otherwise the failure names the kind and reason of the last create. |
| Coordinator.RunJob | cmd/kns-job/main.go:52-78 | A configuration error happens exactly when an identity variable is empty, the pod cannot be read or it has no `kns-job` container. In that case the only call is at most the pod lookup. |
| Coordinator.ProvisionAndTearDown | cmd/kns-job/main.go:80-120 | Once the image is known, no fatal exit is a configuration error. |
| Coordinator.ProvisioningCreates | cmd/kns-job/main.go:80-120 | After the pod lookup, the calls are the issued creates, one per plan object and in plan order. No other call is a create. |
| Coordinator.ProvisioningTearsDownLast | cmd/kns-job/main.go:86-92 | Delete and List calls appear only after every create was accepted, and they name the child namespace. Once every create succeeds, the delete comes right after the last create. |
| Coordinator.ProvisioningCompletes | cmd/kns-job/main.go:86-120 | Provisioning completes exactly when every create, the delete and the poll succeed. Each failure maps to its own fatal cause. |
| Coordinator.RunIssuedCreateKinds | cmd/kns-job/main.go:80-120 | A misconfigured run issues no create. The Create calls of a configured run ask for exactly the kinds of the objects provisioning issued, the rejected one included. |
| Coordinator.ProvisioningFollowsStepOrder | cmd/kns-job/main.go:80-120 | The kinds of the Create calls a run issues are always a prefix of namespace, role, service account, role binding, service, daemonset. |
| Coordinator.CreatesIssued | cmd/kns-job/main.go:80-120 | With the first `k` creates accepted and the next rejected, exactly `k + 1` creates are issued and the failure names that step. With all six accepted, every object of the plan is created. |
| Coordinator.StepFailureStopsRun | cmd/kns-job/main.go:80-120 | A rejected step is fatal with its kind and reason. Only the creates up to and including it are issued; the steps before it are created and it is not. No delete or List call follows. |
| Coordinator.ProvisioningDaemonSetAfterService | cmd/kns-job/main.go:110-120 | Along a plan in step order, the only daemonset create is the seventh call. It comes right after the service create, which was accepted. |
| Coordinator.DaemonSetOnlyAfterService | cmd/kns-job/main.go:110-120 | A daemonset create is issued only right after the create of the service that carries the start time, in the same namespace, once that service's create was accepted. |
| Coordinator.FullyProvisionedIff | cmd/kns-job/main.go:80-120 | A configured run provisions everything exactly when no create in the order is rejected. |
| Coordinator.CompletedIff | cmd/kns-job/main.go:86-122 | A run ends normally exactly when it is configured and every create, the delete and the poll succeed. Its last call is then a List of the child namespace that returned zero items. |
| Coordinator.TeardownOnlyAfterFullProvisioning | cmd/kns-job/main.go:86-92 | The deferred delete and its polling happen only in a fully provisioned run, after the six creates, and they name the child namespace. |
| Coordinator.TeardownFollowsFullProvisioning | cmd/kns-job/main.go:86-122 | A fully provisioned run creates the child namespace first and deletes that same namespace right after the daemonset. |
| Coordinator.FullRunCreatesStepOrder | cmd/kns-job/main.go:80-120 | A fully provisioned run creates exactly the six kinds, in order. |
| Coordinator.CleanupFailureIsFatal | cmd/kns-job/main.go:86-92 | A rejected delete, a failed List or an unconfirmed deletion makes the run fatal, each with its own cleanup cause. |
| Coordinator.RunNamesFollowThePod | cmd/kns-job/main.go:80-116 | Every create names the child namespace derived from the pod, and the daemonset runs the rewritten job image. |
| StartGate.Gate | cmd/kns-pod/main.go:41-76 | The agent's checks with the corrected window check. An accepted start time came from the start-time label of a fetched service, parses as an int64, and lies in the window. The identity was complete. |
| StartGate.GateAsWritten | cmd/kns-pod/main.go:41-76 | The agent's checks with the window check as written. An accepted start time came from the start-time label of a fetched service and parses as an int64. The identity was complete. |
| StartGate.GateAcceptsIff | cmd/kns-pod/main.go:41-76 | The gate accepts `v` exactly when the identity is complete, the service was read, the label is present and parses to `v`, and `v` lies in `[now, now + 2 min]`. |
| StartGate.IdentityCheckedFirst | cmd/kns-pod/main.go:41-53 | Name, then namespace, then address are checked; the first empty one is the error. With any of them empty, the service and the clock do not affect the outcome. |
| StartGate.LabelErrors | cmd/kns-pod/main.go:53-66 | With a full identity, a failed lookup, a missing label and an unparsable label each give their own error. |
| StartGate.Admit | cmd/kns-pod/main.go:68-76 | The window check yields the start time itself, or one of the two skew errors. |
| StartGate.AdmitIff | cmd/kns-pod/main.go:70-76 | The check accepts exactly inside the closed window. It reports "in the past" exactly when the start is before `now`, and "too far ahead" exactly when it is beyond `now + 2 min`. |
| StartGate.WindowBoundaries | cmd/kns-pod/main.go:70-76 | A start equal to `now` or to `now + 2 min` is accepted. One nanosecond beyond either end is refused with the matching error. |
| StartGate.AdmitAsWritten | cmd/kns-pod/main.go:68-76 | The check as written, on `time.Unix`'s year-1 based int64 seconds, yields the start time or one of the two skew errors. |
| StartGate.AdmitAsWrittenAgreesBelowWrap | cmd/kns-pod/main.go:68 | For labels up to `MaxInt64 - 62135596800`, the check as written and the corrected one agree. |
| StartGate.AdmitAsWrittenInWrapRange | cmd/kns-pod/main.go:68-76 | For every label above `MaxInt64 - 62135596800` and every clock reading whose window fits an int64, the check as written says "in the past" and the corrected check says "too far ahead". |
| StartGate.AdmitAsWrittenAcceptsTheSame | cmd/kns-pod/main.go:68-76 | For every int64 label and every clock reading whose window fits an int64, both versions accept the same start times. |
| StartGate.GateAsWrittenDiffersOnlyInWrapRange | cmd/kns-pod/main.go:41-76 | The program's gate and the corrected gate give the same outcome except on a label above `MaxInt64 - 62135596800`. There, at every clock reading whose window fits an int64, the program reports "in the past" and the corrected gate "too far ahead". |
| StartGate.AdmitAsWrittenMisjudgesFarFuture | cmd/kns-pod/main.go:68-73 | The label `9223372036854775807`, read at the epoch, is reported as "in the past" by the check as written and as "too far ahead" by the corrected check. |
| Handoff.PublishedStartTimePasses | cmd/kns-pod/main.go:63-76 | A start time published at `t` passes an agent with a full identity that reads it anywhere from two minutes before the start time up to the start time. |
| Handoff.ReadBeforeStartPasses | cmd/kns-job/main.go:231-236 | Every read between the publication and the start time passes the gate. |
| Handoff.LateOrEarlyReadFails | cmd/kns-pod/main.go:70-76 | A read after the start time is "in the past", and one more than two minutes before it is "too far ahead". |
| Handoff.AgentAcceptsServiceOfRun | cmd/kns-job/main.go:110-116 | The service any coordinator run creates carries exactly the published start time, so an agent reading it inside the window is admitted. |
| Handoff.PublishedStartTimePassesAsWritten | cmd/kns-pod/main.go:63-76 | Through the gate the program runs, at every clock reading whose window fits Go's int64 seconds, a published start time passes every read from two minutes before it up to it. |
| Handoff.ReadBeforeStartPassesAsWritten | cmd/kns-job/main.go:231-236 | Through the program's gate, every such read between the publication and the start time passes. |
| Handoff.LateOrEarlyReadFailsAsWritten | cmd/kns-pod/main.go:68-76 | Through the program's gate, a read after the start time is "in the past". A read more than two minutes early is "too far ahead" for a start time below `MaxInt64 - 62135596800`. Above that point, every read reports "in the past". |
| Handoff.AgentAcceptsServiceOfRunAsWritten | cmd/kns-job/main.go:110-116 | Through the program's gate, an agent reading any service a run creates inside the window is admitted. |

## Left out

- Client construction is not modelled. This is `rest.InClusterConfig` and `kubernetes.NewForConfig` in both programs, with their fatal errors. They depend on the process environment, and nothing is created before them.
- Real Kubernetes API behaviour is not modelled. Every Get, Create, Delete and List is an input outcome, accepted or rejected with a reason. A create's outcome depends only on the kind of object, because each kind is created once per run.
- The names that creates return are assumed to equal the requested names. The coordinator chooses every name, and later calls read the names back from the created objects.
- The static fields of the object literals are left out: role rules, service ports and selector, and the daemonset's pod template, probes, tolerations and downward-API variables. They hold data but no logic. Only the names, namespace, start-time label, image and account are modelled.
- `time.Sleep(1 * time.Minute)` after the daemonset is left out. The model assumes it returns, and the commented-out signal handling is not live code.
- The timing of `wait.PollImmediate` (one call at once, then one a second for at most a minute) is not modelled. The List outcomes inside that ceiling are given as a non-empty sequence, and running out of them is the poll timeout.
- The agent's HTTP server, `healthz` stub and greeting print are left out, because they contain no logic.
- Log text is left out, including the `log.Fatal` calls that pass format arguments. Only the fact that these paths end the process is modelled.
- The clock is an input. The coordinator's reading at `createService` is `Cluster.publishAt`, and the agent's reading is the `now` parameter.
- Decimal.ParseInt64: this is weaker than Go because it does not tell a syntax error from a range error. The agent treats both the same, as fatal.
- StartGate.AdmitAsWrittenAcceptsTheSame: this holds only for clock readings whose window fits in Go's int64 seconds (`RepresentableNow`). Readings beyond that lie billions of years away.
- Handoff.PublishedStartTimePasses: this is stated for the corrected `StartGate.Gate`. `Handoff.PublishedStartTimePassesAsWritten` states it for the program's gate.
- Handoff.ReadBeforeStartPasses: this is stated for the corrected gate. `Handoff.ReadBeforeStartPassesAsWritten` states it for the program's gate.
- Handoff.LateOrEarlyReadFails: this is stated for the corrected gate. `Handoff.LateOrEarlyReadFailsAsWritten` states it for the program's gate, where an early read of a start time above the wrap-around is reported as in the past.
- Handoff.AgentAcceptsServiceOfRun: this is stated for the corrected gate. `Handoff.AgentAcceptsServiceOfRunAsWritten` states it for the program's gate.
- The `AsWritten` Handoff lemmas hold only for clock readings whose window fits in Go's int64 seconds (`RepresentableNow`). Other readings lie hundreds of billions of years from now, at the edge of what Go's time values can hold.
- StartGate.Gate: this uses the corrected window check `Admit`, not the one the program runs. For a label above `MaxInt64 - 62135596800` it reports `StartTooFarAhead` where the program logs that the start is in the past. `StartGate.GateAsWritten` is the gate as written, and `StartGate.GateAsWrittenDiffersOnlyInWrapRange` states that this is the only difference.
- Three behaviours of the code are modelled as they are:
  - A start time equal to `now` is accepted, because `Before` is strict.
  - Every create error is fatal, AlreadyExists included.
  - A `log.Fatalf` skips the deferred deletion of the namespace.

## Findings

| source | as written | input that shows it | evidently intended | confidence | as-written member | corrected member |
|---|---|---|---|---|---|---|
| cmd/kns-pod/main.go:68-76 | `time.Unix(v, 0)` adds 62135596800 to `v` in an int64. For `v > MaxInt64 - 62135596800` the sum wraps to a negative number, so the start time compares as earlier than `now`. | The label `9223372036854775807` read at the Unix epoch (`now` = 0) is reported as in the past. | A start time beyond `now + 2 min` is reported as too far in the future. | not executed | StartGate.AdmitAsWritten, StartGate.GateAsWritten, StartGate.AdmitAsWrittenMisjudgesFarFuture | StartGate.Admit, StartGate.AdmitIff, StartGate.Gate |
