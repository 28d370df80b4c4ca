# MediaKind RX1 control module, modelled in Dafny

This project models the core of a Bitfocus Companion module that controls a MediaKind RX1
receiver over its HTTP API. The module:

- keeps the list of services on the receiver (type, id, name, state);
- keeps the statistics each service last reported, and the receiver's own status (SDI
  ports, PCIe slots, the per-service statistics array);
- publishes all of this to the host as variables: per-service ids such as
  `service_<sanitised name>_primary_bitrate`, and server-wide ids such as
  `sdi_port_0_output_active` and `running_services`;
- answers feedback conditions (service state, receiving, alarms, bitrate threshold,
  descrambling, satellite and ASI inputs, blocked, programs, decode state);
- runs the actions: start, stop and toggle a service; start-all and stop-all; refresh;
  custom GET and POST; status fetch, configuration export, server assignment and removal;
  and the fetch of services by type.

The module instance is the value `Engine.Instance`:

- its fields are those of the constructor: services, serviceStatus, serverStatus and
  serviceIdToName;
- it also holds the host's view: the variable values, the variable definitions, the
  dropdown choices and the connection status;
- `effects` is the ordered record of everything the instance asks of the outside: HTTP
  requests, host registrations, status changes, non-debug log entries, deferred
  refreshes and pauses.

What the receiver answers is a parameter of each operation:

- a `Reply` is either `Failed` (transport or HTTP error) or `Replied(body)`;
- a JSON `null` body is `Replied(None)`;
- `accepts(verb, path)` says whether a request whose answer is not used succeeds.

Each JSON field the code reads is a `Field<T>`: `Absent`, `Null` or `Has(v)`. JavaScript's
`x || d` and `x ? a : b` are written out on these values.

Module layout:

| file | modules | what it holds |
|---|---|---|
| text.dfy | Wrappers, Text | `Option`, decimal text, `split` |
| telemetry.dfy | JsValues, Telemetry | JSON field values and the receiver's records |
| formatter.dfy | Formatter | formatBitrate and the name sanitiser |
| varids.dfy | VarIds | the variable ids and the order in which they are declared |
| uri.dfy | UriEncoding | `encodeURIComponent` and its inverse |
| idparse.dfy | IdParse | parsing variable ids back into fields |
| projection.dfy | Projection | the values written for a status or server status, and the loops that fill them |
| service_props.dfy, server_props.dfy | ServiceProps, ServerProps | properties of those writes |
| registry.dfy | Registry | variable definitions, counts and initial values |
| engine.dfy | Engine | the instance (`Instance`) and its methods in index.js |
| conditions.dfy | Conditions | the feedback predicates |
| actions.dfy | Actions | the action callbacks |

## Model

| member | source | states |
|---|---|---|
| Formatter.Hundredths | index.js:345 | The bitrate in hundredths of Mbps, rounded half up: within half a hundredth of bitrate / 10000. |
| Formatter.MbpsTextRoundTrip | index.js:345 | The "x.yz Mbps" text reads back as exactly the hundredths it was built from. |
| Formatter.MbpsTextShape | index.js:345 | The Mbps text ends in "s" and is never "No Data" or the no-signal text. |
| Formatter.FormatBitrateNoData | index.js:337-342 | "No Data" exactly when receiving is explicitly falsy or the bitrate is missing or null. |
| Formatter.FormatBitrateZero | src/variables.js:5-15 | "0 Mbps (No Signal)" exactly for a received bitrate of 0. |
| Formatter.FormatBitrateValue | index.js:337-347 | A positive received bitrate reads back as its rounded value in Mbps. |
| Formatter.FormatBitrateExample | src/variables.js:5-15 | 2 500 000 bps with no receiving flag shows "2.50 Mbps". |
| Formatter.Sanitize | index.js:351 | The result has the name's JavaScript length (UTF-16 code units) and only word characters. |
| Formatter.SanitizeConcat | index.js:351 | The rewrite works character by character. |
| Formatter.SanitizeCharMeaning | index.js:351 | A word character stays; any other character becomes one '_' per UTF-16 code unit, so two above the Basic Multilingual Plane. |
| Formatter.SanitizeAstralExample | index.js:491 | "\U{1F4FA}x" sanitises to "__x". |
| Formatter.SanitizeIdempotent | src/variables.js:231 | Sanitising twice is sanitising once. |
| Formatter.SanitizeKeepsWords | index.js:223 | A name made of word characters is unchanged. |
| UriEncoding.EncodeComponent | index.js:469 | The encoding has only unreserved characters, '%' and hex digits, and never a '/'. |
| UriEncoding.DecodeEncode | index.js:510-512 | Decoding an encoded component gives back the component. |
| VarIds.ServiceFieldOrderLength | src/variables.js:60-160 | One service declares 118 variables. |
| VarIds.ServiceFieldOrderMember | src/variables.js:60-160 | The per-service declarations are exactly the declared per-service fields. |
| VarIds.AudioBlocksMember | src/variables.js:136-147 | Audio blocks 1..k hold exactly the audio fields numbered 1 to k. |
| VarIds.AudioNotInOrder | src/variables.js:136-147 | An audio field numbered outside 1..8 is never declared. |
| VarIds.SdiBlocksMember | src/variables.js:42-50 | SDI blocks 0..k-1 hold exactly the fields of ports below k. |
| VarIds.PcieBlocksMember | src/variables.js:53-58 | PCIe blocks 0..k-1 hold exactly the fields of slots below k. |
| VarIds.FixedFieldsLength | src/variables.js:20-58 | The server-wide declarations number 47. |
| VarIds.FixedFieldsMember | src/variables.js:20-58 | The server-wide declarations are exactly the declared server-wide fields. |
| IdParse.ParseIndexedRoundTrip | src/variables.js:42-58 | "n_rest" parses back into n and rest. |
| IdParse.ServiceSuffixRoundTrip | src/variables.js:60-160 | Every per-service id suffix parses back into its field. |
| IdParse.ServiceKeyInjective | src/variables.js:60-160 | Within one service, two fields have the same id exactly when they are the same field. |
| IdParse.SystemKeyRoundTrip | src/variables.js:20-58 | Every server-wide id parses back into its field. |
| IdParse.SystemKeyInjective | src/variables.js:20-58 | Two server-wide fields have the same id exactly when they are the same field. |
| Projection.PutConcat | index.js:352-461 | Writing a and then b into the dictionary is writing a + b. |
| Projection.PutKeys | index.js:352-461 | The ids after the writes are the old ones plus one per write. |
| Projection.PutLast | index.js:352-461 | The last write to an id decides its value. |
| Projection.PutUntouched | index.js:352-461 | An id no write touches keeps its old presence and value. |
| Projection.PutLookup | index.js:352-461 | An id's value after the writes is the value of the last write to its field, or the old value. |
| Projection.FillSources | index.js:371-396 | The loop over the sources writes the source blocks in order. |
| Projection.FillAudio | index.js:430-440 | The loop over the audio streams writes block idx + 1 for stream idx. |
| Projection.FillDecode | index.js:404-441 | The decode fields, the first video stream, then the audio blocks. |
| Projection.FillServiceVars | index.js:349-462 | updateServiceVariables' dictionary is the fold of the service writes. |
| Projection.FillPorts | index.js:267-290 | The loop over the SDI ports writes one block per port. |
| Projection.FillSlots | index.js:293-303 | The loop over the PCIe slots writes one block per slot. |
| Projection.FillServerVars | index.js:253-305 | getServerStatus' dictionary is the fold of the server writes. |
| ServiceProps.SatelliteFieldsOnlyForSat | index.js:387-395 | The satellite fields are written exactly for a source of type "sat". |
| ServiceProps.SourcesWritesSlots | index.js:371-375 | Primary fields come only from the first source; secondary fields only from later ones. |
| ServiceProps.AudioNumbering | index.js:431-440 | Audio stream n, counting from 1 in filter order, owns the n-th block of seven writes. |
| ServiceProps.ServiceWritesDeclared | src/variables.js:136-147 | Every id written is declared exactly when there are at most eight audio streams. |
| ServiceProps.EmptyStatusWrites | index.js:471-474 | An empty status writes only uptime 0 and running state "unknown". |
| ServiceProps.ActiveSourceValue | index.js:364 | active_source is written exactly with inputs, and is "Primary" exactly when activeSourceIndex is 0. |
| ServiceProps.ClearVarsExact | index.js:490-505 | Clearing writes exactly the three "No Data" bitrates, "offline" and the two "No" receiving flags. |
| ServiceProps.ClearVarsSize | index.js:494-502 | Clearing writes six distinct ids. |
| ServiceProps.ClearKeysDistinct | index.js:494-502 | The six cleared ids are pairwise different. |
| ServerProps.ServerWritesFields | index.js:253-303 | The server writes are the ten server fields, the SDI blocks, then the PCIe blocks. |
| ServerProps.ServerWritesDeclared | src/variables.js:42-58 | All ids written are declared exactly when there are at most five SDI ports and at most four PCIe slots. |
| ServerProps.ExtraWriteUndeclared | src/variables.js:42-58 | A sixth SDI port or a fifth PCIe slot produces a write that is not declared. |
| ServerProps.OutputActiveValue | index.js:273-288 | A port's output_active is "Yes" exactly when its service is listed and started. |
| ServerProps.NullSlotValues | index.js:295-301 | A null slot reads "Empty", with part number "N/A". |
| ServerProps.CountsBounded | src/variables.js:171-172 | running + stopped never exceeds total. |
| Registry.RegisterDefinitions | src/variables.js:20-164 | The declaration list is built block by block, as Definitions specifies. |
| Registry.DefinitionsLength | src/variables.js:20-164 | 47 fixed declarations plus 118 per listed service. |
| Registry.DefinitionsMember | src/variables.js:20-164 | A declaration is a declared server-wide field or a declared field of a listed service, and all of these appear. |
| Registry.ServiceVarsDeclared | index.js:349-462 | Every id updateServiceVariables writes is declared, given at most eight audio streams. |
| Registry.ServerVarsDeclared | index.js:253-305 | The server ids written are all declared exactly when the port and slot bounds hold. |
| Registry.ComputeValues | src/variables.js:168-353 | The initial values: counts, then server values, then each service's values. |
| Registry.SetServiceValues | src/variables.js:229-350 | The loop over the listed services builds the per-service values in list order. |
| Registry.CountValues | src/variables.js:170-173 | total is the list length, running the started services, stopped the stopped ones, blocked 0. |
| Registry.DetailValues | src/variables.js:242-347 | A detail field of a service whose ids are its own holds the value from its stored statistics, or nothing. |
| Registry.InfoValues | src/variables.js:233-238 | The four list-entry values of a service are its state, type, id and stateModifiedAt. |
| Registry.SharedServiceId | src/variables.js:231 | Services "x ts" and "x" both own the id service_x_ts_id. |
| Engine.Initial | index.js:13-16 | The constructor starts with no services, no statistics, an empty server status (`{}`), no lookups and no choices. Its connection status is Connecting, the status init sets first at index.js:22; no host call is recorded for it, as the constructor makes none. |
| Engine.UpdateVariableDefinitions | index.js:100-103 | Registers Definitions(services), then sets the registry values over the old ones. |
| Engine.UpdateServiceVariables | index.js:349-462 | Adds the values of one service's statistics, under its sanitised name. |
| Engine.ClearServiceVariables | index.js:490-505 | Adds the six cleared values for the sanitised name. |
| Engine.Choices | index.js:208-211 | One dropdown choice per listed service, in list order: its id is `type/id` and its caption `name (type)`. |
| Engine.ChoiceOption | index.js:208-211 | A service's choice reads back as its type and id when neither holds '/'. |
| Engine.IdToNameLastWins | index.js:216-219 | An id maps to the name of the last listed service with that id, and only listed ids are mapped. |
| Engine.ServiceOption | src/actions.js:17-18 | The option parses exactly when it has one '/'. |
| Engine.ServiceOptionJoins | src/actions.js:17-18 | A parsed option is its type and id joined by '/', neither holding '/'. |
| Engine.Listed | index.js:202-244 | A failed fetch sets ConnectionFailure and keeps the list, the id-to-name lookup, the choices, the values and the definitions; a reply replaces the list (null gives []), rebuilds the lookup from empty as IdToName (the last duplicate id wins), the choices and the definitions, sets the info values and the registry values, and sets Ok. The statistics are untouched either way. |
| Engine.GetServices | index.js:202-244 | getServices is Listed. |
| Engine.ServedAsWritten | index.js:246-335 | getServerStatus as written never changes the list, the connection status, the lookup or the choices; a failure keeps the values, statistics and definitions, a reply stores the server status. |
| Engine.GetServerStatusAsWritten | index.js:246-335 | The new state is ServedAsWritten: stores the server status and the entries of listed services, sets the values, then rebuilds the definitions over them. |
| Engine.ServedRequests | index.js:246-335 | getServerStatus as written makes exactly one request, and leaves blocked_services at 0 when the server replied. |
| Engine.BlockedResetToZero | index.js:325-330 | As written, blocked_services reads 0 after every server round. |
| Engine.BlockedCountLost | index.js:308-330 | One listed, blocked service: the count is 1 but the variable shows 0. |
| Engine.GetServerStatus | index.js:246-335 | The same round, with blocked_services set after the rebuild. |
| Engine.BlockedReported | index.js:308-326 | With that order, blocked_services is the number of blocked entries of listed services. |
| Engine.BlockedCountMeaning | index.js:308-326 | The count is positive exactly when some entry of a listed service is blocked. |
| Engine.StoreEntriesKeys | index.js:310-315 | A name has stored statistics exactly when it had some or an entry of a listed service of that name arrived. |
| Engine.AbsorbEntries | index.js:308-326 | The loop over the entries stores, shows and counts as the folds specify. |
| Engine.ServerRoundValues | index.js:305-330 | The values of a round, built in the corrected order. |
| Engine.GetServiceStatus | index.js:464-488 | GET the statistics of the id (or the name), store the body or {}, set its values or the cleared ones; answer the body. |
| Engine.Polled | index.js:138-152 | The poll never changes the list, the connection status, the server status, the lookup or the choices, and changes nothing for an empty list. |
| Engine.PollAllServiceStatus | index.js:138-152 | The new state is Polled: nothing for an empty list; otherwise every service's fetch in order, then the rebuild. |
| Engine.PolledRequests | index.js:138-152 | The poll makes exactly one statistics request per listed service, in list order. |
| Engine.PollLoop | index.js:142-148 | The loop over the services is the three folds of the poll. |
| Engine.PollRequestsInOrder | index.js:142-148 | The poll requests every listed service's statistics once, in list order. |
| Engine.PollStatusesKeys | index.js:142-148 | After the poll a name has statistics exactly when it had some or its fetch replied. |
| Engine.FailedFetchKeepsStatus | index.js:482-487 | A failed fetch keeps the stored statistics and shows the cleared values. |
| Engine.ListedRequests | index.js:202-244 | getServices makes exactly one request, for the service list. |
| Engine.Refresh | index.js:122-126 | The new state is getServices, then getServerStatus as written, then the poll (Polled of ServedAsWritten of Listed). The requests are the list, then the server status, then one statistics request per service of the list in force; after a failed list fetch that is the previous list, with ConnectionFailure. |
| Engine.StartService | index.js:507-520 | POSTs start on the encoded path; answers whether the device accepted it; then Info and a refresh in 1000 ms, or Error. |
| Engine.StopService | index.js:522-535 | The same with stop. |
| Conditions.ServiceStateMeaning | src/feedbacks.js:33-42 | service_state holds exactly when the first listed service with the option's type and id has the state. |
| Conditions.ServiceStateOfChoice | src/feedbacks.js:33-42 | For a service's own choice, service_state reads that service's state. |
| Conditions.StatusByIdMeaning | src/feedbacks.js:63-77 | The id-keyed lookup finds statistics exactly when the id maps to a non-empty name that has some. |
| Conditions.StatusByIdIgnoresType | src/feedbacks.js:63-77 | The id-keyed feedbacks ignore the type part of the option. |
| Conditions.StatusByIdNeedsOneSlash | src/feedbacks.js:63-77 | An option without exactly one '/' finds nothing. |
| Conditions.ActiveSourceDefault | src/feedbacks.js:63-77 | A falsy activeSourceIndex selects the first source. |
| Conditions.ServiceReceivingMeaning | src/feedbacks.js:63-77 | service_receiving holds exactly when the active source's receiving flag is true. |
| Conditions.ReceivingMatchesVariable | src/feedbacks.js:63-77 | service_receiving agrees with the receiving variable being "Yes". |
| Conditions.InputAlarmMeaning | src/feedbacks.js:119-136 | The alarm holds exactly when the active source's counter (0 when missing) exceeds the threshold; with no active source it is false. |
| Conditions.BitrateThresholdMeaning | src/feedbacks.js:175-196 | "less" is strictly below, anything else strictly above; no bitrate never triggers. |
| Conditions.BitrateAtLimit | src/feedbacks.js:175-196 | At the limit itself neither comparison holds. |
| Conditions.DescramblingStateUnique | src/feedbacks.js:229-242 | At most one descrambling state holds, and none without a decode. |
| Conditions.SourceActiveNoDefault | src/feedbacks.js:273-286 | With no activeSourceIndex no source is active. |
| Conditions.SourceActiveMatchesVariable | src/feedbacks.js:273-286 | source_active for source 0 agrees with active_source reading "Primary". |
| Conditions.AnyServiceRunningMeaning | src/feedbacks.js:312-314 | Some listed service is started. |
| Conditions.AllServicesStoppedMeaning | src/feedbacks.js:326-328 | The list is non-empty and every listed service is stopped. |
| Conditions.AnyAndAllExclusive | src/feedbacks.js:312-328 | The two never hold together, and neither holds for an empty list. |
| Conditions.SatelliteInputMeaning | src/feedbacks.js:371-393 | Each check reads the first satellite source; without one, or for an unknown check, it is false. |
| Conditions.AsiDefaultThreshold | src/feedbacks.js:432-447 | A zero threshold means 1 000 000 bps; a missing bitrate never passes. |
| Conditions.ServiceBlockedMeaning | src/feedbacks.js:467-473 | Blocked exactly when the stored running state contains "blocked". |
| Conditions.ProgramDetectedMeaning | src/feedbacks.js:502-516 | Program 0 holds exactly when some program is listed; any other number exactly when a listed program has it. |
| Conditions.ProgramDetectedNeedsList | src/feedbacks.js:502-516 | Without a program list it is false for every number. |
| Conditions.DecodeStateMeaning | src/feedbacks.js:565-587 | "active" exactly when a stream of that type is decoded; a resolution check never holds for audio. |
| Conditions.ResolutionMatchesVariable | src/feedbacks.js:565-587 | The resolution check compares with the text of the video_resolution variable. |
| Actions.LookupMeaning | src/actions.js:63-67 | The looked-up service is listed and named by the option, and the lookup is what service_state reads. |
| Actions.StartAction | src/actions.js:16-23 | Without exactly one '/', a warning; otherwise startService for the option's type and id. |
| Actions.StopAction | src/actions.js:39-46 | The same with stopService. |
| Actions.ChoiceCommand | src/actions.js:16-23 | A dropdown choice posts the command to that listed service's path. |
| Actions.ControlPathNames | index.js:507-535 | The last three segments of a control path decode to the type and id and are the command. |
| Actions.ControlPathInjective | index.js:507-535 | Two control paths are equal only for the same type, id and command. |
| Actions.ToggleMatchesFeedback | src/actions.js:62-81 | Toggle stops exactly what service_state shows as started, starts any other listed service, and finds nothing otherwise. |
| Actions.ToggleService | src/actions.js:62-81 | A warning when the option is malformed or names no service; otherwise the toggle command for that service. |
| Actions.RefreshServices | src/actions.js:87-90 | The new state is getServices followed by getServerStatus as written (ServedAsWritten of Listed); the list, then the server status, each requested once and in that order; as written, blocked_services ends at 0 when the server replied. |
| Actions.CustomGet | src/actions.js:104-111 | GET the path, then Info or Error. |
| Actions.PostBody | src/actions.js:132-147 | A warning exactly for a non-empty body that is not JSON, and then no body; a body is sent only for truthy parsed JSON. |
| Actions.CustomPost | src/actions.js:132-147 | The warning if any, then the POST with that body, then Info or Error. |
| Actions.WithState | src/actions.js:154-155 | The listed services in the state are exactly what `Array.prototype.filter` (Telemetry.Filter) keeps, in list order, each once per occurrence; all of them and only them. |
| Telemetry.FilterSnoc | src/actions.js:154-155 | Filtering a list with one more service at the end keeps what it kept before, then that service if it passes the test. |
| Actions.BulkRequestsInOrder | src/actions.js:153-173 | Start-all and stop-all send one command per service in the state they act on, in list order, and no other request. |
| Actions.StartAll | src/actions.js:153-160 | The loop adds the start effects and a 500 ms pause for each stopped service. |
| Actions.StopAll | src/actions.js:166-173 | The loop adds the stop effects and a 500 ms pause for each started service. |
| Actions.GetServiceStatusAction | src/actions.js:188-198 | Nothing at all for a malformed option or an unlisted service; otherwise getServiceStatus for it. |
| Actions.StatusActionRequests | src/actions.js:188-198 | Its only request is the statistics GET for the service the option names. |
| Actions.ExportConfig | src/actions.js:213-226 | Nothing for a malformed option; otherwise GET the service's /config path, then Info or Error. |
| Actions.AssignServer | src/actions.js:248-265 | PUT on the assignment path, then Info or Error; nothing for a malformed option. |
| Actions.RemoveServer | src/actions.js:287-304 | DELETE on the same path, then Info or Error; nothing for a malformed option. |
| Actions.AssignPathNames | src/actions.js:253-257 | The last four segments decode to the type, the id, "servers" and the server id. |
| Actions.AssignPathInjective | src/actions.js:253-257 | Two assignment paths are equal only for the same type, id and server. |
| Actions.MergedExtends | src/actions.js:331-337 | The merge keeps the old list as a prefix and appends only fetched services. |
| Actions.MergedIds | src/actions.js:331-337 | Every fetched id is on the merged list, and no appended service repeats an earlier id. |
| Actions.MergedDistinct | src/actions.js:331-337 | A list without repeated ids keeps that property. |
| Actions.MergeServices | src/actions.js:331-337 | The push loop computes the merge. |
| Actions.GetServiceByType | src/actions.js:326-343 | A failure or null body: the request and an error. An empty array: the request and info. Otherwise: the merge, then getServices. |

## Left out

- The HTTP transport of makeRequest, its timeout and the JSON parsing of answers. Each request is a
  `Request` effect; its answer is a parameter.
- Timers: the polling interval, the 1000 ms refresh after start/stop and the 500 ms pacing of
  start-all and stop-all. These are the `ScheduleRefresh` and `Pause` effects; the refresh they
  schedule is not run.
- Concurrency. getServerStatus and pollAllServiceStatus run one after the other in
  `Engine.Refresh`, while the source starts them without waiting for each other.
- The instance is a value passed in and out of each operation, not an object updated in
  place; the host's callbacks cannot alias it.
- `JSON.parse` and `JSON.stringify`. The POST body's parse is the `parse` parameter; logged
  texts are not modelled.
- Log messages: only the level of info, warn and error entries is recorded. Debug entries
  are left out.
- connection_status and the configuration fields (host, port, polling). presets.js is not
  part of this model.
- Bodies that are not arrays or objects of the expected shape (a non-array `services`, a
  string for a number) are not modelled. Only null, missing and present values are.
- Formatter.Hundredths: `toFixed(2)` on a float is modelled by integer hundredths, rounded half
  up. The binary float rounding of `toFixed` is not captured.
- Conditions.SatelliteInputMeaning: the BER check parses the text with `parseFloat` and is
  true when the result is a number (not NaN) strictly below the user's threshold option. The
  model takes this as the `berBelow(ber, threshold)` parameter, which stands for "parses as a
  number below the threshold", since it works on floats.
- Conditions.DecodeStateMeaning: decode_state reads `decode.streams` without a guard, which
  throws when it is missing. The model requires the streams to be present (`StreamsPresent`).
- JSON numbers are integers in the model (`Value.Num(int)`, and every numeric field of the
  receiver's records). A fractional value such as a C/N margin of 5.5 dB cannot be
  represented. This affects Conditions.SatelliteInput and Conditions.SatelliteInputMeaning
  (cnMargin and signalStrength against a threshold), and the Projection writes of cn_margin,
  signal_strength and the server's memory and disk sizes.
- Actions.GetServiceByType: the path uses the type unencoded, as the source does; its
  dropdown offers only fixed types. The merged list survives only when the list fetch that
  follows fails (`Actions.MergeOverwritten`).
- The `setTimeout`-scheduled getServices started inside start-all and stop-all does not run
  between the loop's turns.

## Findings

| source | as written | input that shows it | evidently intended | confidence | as-written member | corrected member |
|---|---|---|---|---|---|---|
| index.js:325-330 | blocked_services is set to the count of blocked entries; then updateVariableDefinitions sets it back to 0 (src/variables.js:173) | one listed service "svc-1" whose server-status entry has runningState "blocked" | blocked_services shows 1, the number of blocked listed services | not executed | Engine.BlockedCountLost | Engine.BlockedReported |

`Engine.GetServerStatusAsWritten` and `Engine.BlockedResetToZero` describe the code as
written. The refresh paths that call getServerStatus (`Engine.Refresh` and
`Actions.RefreshServices`, through `Engine.ServedAsWritten`) use that version, as the source
does.
`Engine.GetServerStatus`, `Engine.ServerRoundValues` and `Engine.BlockedReported` are the
corrected order, which sets blocked_services after the definitions are rebuilt.
