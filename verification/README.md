# Unit status reporter: a Dafny model

This project models the decision logic of the bs status reporter
(`status/status.go`). The reporter is a sidecar. Once per interval it lists
every container on the host and inspects each one. It derives a status label
(`started`, `stopped` or `error`) for every container that is a tsuru unit and
posts the list to the tsuru API at `<endpoint>/units/status` with a bearer
token. Then it force-removes every unit that the API answers with
`Found == false`.

The source is one Go file. The model splits it into modules of its own choosing,
one per concern of a report cycle:

- `StatusTypes` (`types.dfy`): the values of a cycle. These are the inspection
  outcome (`NotManaged | InspectError | Inspected(restarting, running)`), the
  listed container, the payload entry `ContainerStatus`, the reply entry
  `RespUnit`, the configuration and a `Result`.
- `StatusDeriver` (`deriver.dfy`): the status label and the reported name.
- `RemoteReporter` (`remote.dfy`): the request target, the Authorization value
  and the request record.
- `ReportBuilder` (`builder.dfy`): the payload. `Payload` specifies it and the
  `BuildPayload` loop computes it.
- `Reconciler` (`reconciler.dfy`): the selection of gone units. `GoneIds`
  specifies it and the `CollectGone` loop computes it.
- `Collaborators` (`collaborators.dfy`): stand-ins for the Docker runtime's
  forced removal and for the HTTP client. Each logs the calls it receives.
- `StatusReporter` (`reporter.dfy`): the `Reporter` class with `UpdateUnits`,
  `HandleResponse` and `ReportStatus`. `CycleRequests` and `CycleRemovals`
  state what one cycle sends and removes.

Inputs that come from the outside world are parameters:

- the container list, with each container's inspection outcome (`listing`);
- what the HTTP exchange yields (`reply`);
- which removals the runtime refuses (`Runtime.refused`).

The reconciler does not check that an ID it removes was in the latest report:
it removes every ID the reply marks not found (`status/status.go:183-195`).
`StatusReporter.RemovalFollowsReplyOnly` shows a cycle that removes an ID it
never reported.

## Model

| member | source | states |
|---|---|---|
| StatusDeriver.DeriveStatus | status/status.go:135-146 | the label is one of the three; it is `error` iff inspection failed or the container is restarting (so restarting beats running); `started` iff it is running and not restarting; `stopped` iff neither |
| StatusDeriver.TrimPrefix | status/status.go:149 | a string starting with the prefix is the prefix followed by the result; any other string is returned unchanged; the result is never longer than the input |
| StatusDeriver.ReportedName | status/status.go:147-150 | no names gives ""; a first name starting with '/' is "/" followed by the result; any other first name is returned unchanged |
| StatusDeriver.ReportedNameStripsOneSlash | status/status.go:149 | exactly one leading '/' is removed ("/web-1" gives "web-1", "//x" gives "/x") |
| StatusDeriver.ReportedNameKeepsPlainName | status/status.go:149 | a first name without a leading '/' is reported unchanged |
| RemoteReporter.TrimRightSlash | status/status.go:161 | the result is a prefix of the input, does not end in '/', and only '/' follows it in the input |
| RemoteReporter.TrimRightSlashUnique | status/status.go:161 | those three properties determine the trimmed base uniquely |
| RemoteReporter.TrimRightSlashIdempotent | status/status.go:161 | trimming an already trimmed base changes nothing |
| RemoteReporter.TrimRightSlashAbsorbsSlash | status/status.go:161 | one more trailing '/' gives the same trimmed base |
| RemoteReporter.StatusUrl | status/status.go:161 | the URL ends in "/units/status", and what precedes it is the base with all trailing '/' removed |
| RemoteReporter.StatusUrlOfPlainEndpoint | status/status.go:161 | a base without trailing '/' is followed directly by "/units/status" |
| RemoteReporter.StatusUrlIgnoresTrailingSlash | status/status.go:161 | a trailing '/' on the base does not change the URL |
| RemoteReporter.AuthorizationValue | status/status.go:167 | the header value is "bearer " followed by the token, nothing else |
| RemoteReporter.NewRequest | status/status.go:161-167 | the request is a POST to StatusUrl of the tsuru endpoint, with content type application/json, the bearer Authorization value of the tsuru token and the payload as body |
| RemoteReporter.AuthorizationValueInjective | status/status.go:167 | different tokens give different header values |
| ReportBuilder.Report | status/status.go:147-151 | a managed container's entry carries the container's ID, its reported name, and its derived status, which is one of the three labels |
| ReportBuilder.Payload | status/status.go:128-152 | the payload is no longer than the list, and every entry's status is one of the three labels |
| ReportBuilder.BuildPayload | status/status.go:128-152 | the loop's result is the payload of the whole list |
| ReportBuilder.PayloadAppend | status/status.go:129-151 | the payload of a concatenation is the concatenation of the payloads, so list order is kept |
| ReportBuilder.PayloadMembers | status/status.go:129-151 | an entry is in the payload iff some managed container at some position yields it (its ID, its reported name, its derived status) |
| ReportBuilder.PayloadEmptyIff | status/status.go:153-155 | the payload is empty iff no listed container is managed, the empty list included |
| ReportBuilder.PayloadSkipsLast | status/status.go:132-134 | appending a non-managed container leaves the payload unchanged |
| ReportBuilder.NotManagedSkipped | status/status.go:131-134 | removing a non-managed container from any position of the list leaves the payload unchanged |
| ReportBuilder.PayloadOfUnits | status/status.go:129-151 | when every container is managed, the payload has one entry per container, and the entry at each position is that container's report (its ID, reported name and derived status) |
| ReportBuilder.PayloadExample | status/status.go:129-151 | a running "/app-a" and a restarting "/app-b" give [a app-a started, b app-b error] |
| Reconciler.GoneIds | status/status.go:182-187 | no more gone IDs than reply entries |
| Reconciler.CollectGone | status/status.go:182-187 | the loop's result is the gone-ID selection of the whole reply |
| Reconciler.GoneIdsAppend | status/status.go:183-187 | selection distributes over concatenation, so reply order is kept |
| Reconciler.GoneIdsMembers | status/status.go:183-187 | an ID is selected iff some reply entry with that ID has Found == false |
| Reconciler.FoundNeverGone | status/status.go:184 | an ID all of whose reply entries are found is never selected |
| Reconciler.GoneIdsAllMissing | status/status.go:183-187 | when no entry is found, every ID is selected, position by position |
| Reconciler.GoneIdsExample | status/status.go:183-187 | reply [a found, b not found] selects ["b"] only |
| Collaborators.Runtime.RemoveForced | status/status.go:190-191 | each call is logged; it fails iff the runtime refuses the ID, and otherwise the container is no longer live |
| Collaborators.HttpClient.Do | status/status.go:168-177 | the request is logged as sent and the exchange's outcome is returned |
| StatusReporter.CycleRequests | status/status.go:108-167 | at most one request per cycle; a request is sent iff listing succeeded and some container is managed; it is a POST to StatusUrl with content type application/json, the bearer value and the payload as body |
| StatusReporter.CycleRemovals | status/status.go:105-125 | nothing is removed when listing or the exchange fails; every removed ID is one the reply marks not found |
| StatusReporter.NoRequestNoRemoval | status/status.go:113-120 | a cycle that sends no request removes nothing |
| StatusReporter.AnsweredCycleRemovesGone | status/status.go:118-124 | a cycle whose request is answered removes exactly the gone IDs, in reply order |
| StatusReporter.RemovalFollowsReplyOnly | status/status.go:183-195 | an ID that was not in the payload is still removed when the reply marks it not found |
| StatusReporter.Reporter.constructor | status/status.go:69-78 | the reporter holds its configuration, runtime client and HTTP client |
| StatusReporter.Reporter.UpdateUnits | status/status.go:127-179 | an empty payload returns an empty reply and sends nothing; otherwise exactly the one request for the payload is sent and the exchange's outcome is returned |
| StatusReporter.Reporter.HandleResponse | status/status.go:181-197 | forced removal is requested for every gone ID in reply order, also after a failed removal; the live set loses exactly the gone IDs that are not refused; the result is always nil |
| StatusReporter.Reporter.ReportStatus | status/status.go:105-125 | the requests sent are CycleRequests; the removals requested are CycleRemovals; the live set loses exactly the accepted ones |

## Left out

- The scheduling goroutine, `time.After`, the abort/exit channels, `Stop` and `Wait` (`status/status.go:79-103`): concurrency and timing, outside what the model states.
- `container.NewClient` and its failure in `NewReporter` (`status/status.go:58-61`): the container package is not part of this model; the constructor takes the clients as given.
- HTTP transport setup with its dial, TLS and overall timeouts (`status/status.go:62-78`): network configuration with no decision logic.
- JSON encoding of the payload and decoding of the reply (`status/status.go:156-160,172-177`): library calls. The request body is the payload as a sequence, and the reply is a sequence of `RespUnit` or a failure.
- Request construction, transport and decode failures (`status/status.go:162-177`) are folded into the one failure of the `reply` parameter; the model does not tell them apart. One consequence: when `http.NewRequest` fails (`status/status.go:162-165`, for instance on a malformed `TsuruEndpoint`), the source never calls `Do`, yet the model still appends the request to `HttpClient.sent`, and `CycleRequests` counts it as sent. URL parsing is not modelled, so the model cannot tell which endpoints make request construction fail.
- Docker's `ListContainers`, `GetFreshContainer` and `RemoveContainer`: their outcomes are inputs (`listing`, each container's `Inspection`, `Runtime.refused`); the container package is not part of this model.
- `log.Printf` calls: side effects with no behavioural content.
- `ReporterConfig.interval` is carried in the configuration but only the left-out loop reads it (`status/status.go:85`).
- `ReporterConfig.dockerEndpoint` is carried in the configuration but is only read by `container.NewClient` (`status/status.go:58`) and by the listing-failure log message (`status/status.go:110`), both left out.
