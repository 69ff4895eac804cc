# Lambda function reconciler, modelled in Dafny

This project models the reconciliation core of the `Resource::Lambda::Function`
resource. That core brings a deployed AWS Lambda function in line with a desired
description of it. It has five pieces:

- **Metadata table** (`metadata.dfy`, module `Metadata`). The frozen `METADATA` map
  sends each property to the lifecycle phases it takes part in (`key`, `create`,
  `update_config`, `update_code`, `update_triggers`). Phase lookup `keys(phase)`
  returns the properties whose tags contain the phase.
- **Property bags** (`properties.dfy`, module `Properties`). Desired properties,
  observed properties and change maps are Ruby hashes. Here they are ordered
  association lists with Ruby's semantics: iteration follows insertion order,
  `h[k] = v` keeps an existing key in place and appends a new one, `h.delete(k)`
  removes the key, and `h[k]` of a missing key is nil.
- **Code comparison** (`code_diff.dfy`, module `CodeDiff`). `same_code?` and
  `format_diff!` drop `code` from a change map when the local zip file's SHA-256
  digest equals the `code_sha_256` the service reports. `File.read` and the digest
  are fields of an `Env` value and stay uninterpreted. A read that raises is `None`.
- **Action dispatch** (`dispatch.dfy`, module `Dispatch`). `process_diff`,
  `update_streams`, `update_code` and `delete_resource` walk a change map and record
  the remote calls they would issue as a trace of `Action` values. A `Run` holds the
  calls issued and the failure that stopped the walk, if any. Calls issued before a
  failure stay issued.
- **Creation** (`creation.dfy`, module `Creation`). `create_resource` retries
  `create_function` up to 100 times, but only on `InvalidParameterValueException`,
  and then raises `ResourceTookToLong`. The remote call is a function from the
  attempt index to that attempt's outcome.
- **Observation** (`observation.dfy`, module `Observation`). `parse_properties`
  resolves each event source mapping to its stream ARN and puts the ARN list, in
  order, under `streams` in place of `event_source_mappings`.

`reconcile.dfy` (module `Reconcile`) relates code comparison to dispatch, for one
update pass: `format_diff!` followed by `process_diff`.

Ruby raises on some ill-shaped values, for example `nil.each` or `nil[:zip_file]`.
The model turns each such case into a `WrongShape` failure for the property involved.

### Behaviour the model follows

- Each change-map entry is handled in the map's order, and within one entry the
  calls run in a fixed order: stream mappings, then code, then configuration. An
  exception stops the walk, and calls already issued stay issued. `Run` and `Walk`
  model exactly this.
- The create loop sleeps after every transient error, the 100th included, before it
  raises `ResourceTookToLong`. So `CreateResource` reports 100 waits on exhaustion.
- `parse_properties` keeps the ARNs in the order the mappings are listed in, and so
  does the model.
- With object-store code (no `zip_file`), `same_code?` returns nil. So `code` stays
  in the change map, and `update_code` then issues no call.
- `process_diff` passes `diff[:code]` to `update_code`, not the entry's own value.
  `EntryRun` does the same.
- Properties outside the table (`code_sha_256`, `event_source_mappings`, any other
  key) carry no tags, so dispatch ignores them: `SilentEntry` and `UntaggedEntry`
  state this.

## Model

| member | source | states |
|---|---|---|
| `Metadata.KeysByPhase` | lib/lambda/function.rb:6-17 | Phase lookup gives exactly the listed properties for each phase: `function_name` is the only key property, `code` the only code property, `streams` the only trigger property, and seven properties are configuration properties. |
| `Metadata.KeysContainTagged` | lib/lambda/function.rb:6-17 | A property is returned for a phase exactly when its tag list contains that phase. |
| `Metadata.Keys` | lib/lambda/function.rb:6-17 | Phase lookup only returns properties of the table. `KeysByPhase` and `KeysContainTagged` characterise it fully. |
| `Metadata.AtMostOneUpdatePhase` | lib/lambda/function.rb:6-17 | A property carries at most one of `update_config`, `update_code` and `update_triggers`. The key property carries none of them. |
| `CodeDiff.SameCode` | lib/lambda/function.rb:83-91 | The answer is false without code and nil without a zip file. It raises exactly when the code value is not a hash or the zip file cannot be read. Otherwise it is truthy exactly when the file's digest is the observed checksum. A missing checksum compares unequal and does not raise. |
| `CodeDiff.FormatDiff` | lib/lambda/function.rb:93-96 | The result raises exactly when the comparison does. Otherwise the result holds every entry of the change map, except that `code` is removed exactly when the desired code names a readable zip file whose digest is the observed checksum. Unique keys stay unique. When keys are unique and `code` is removed, the remaining entries keep their order: the result is the change map with one position cut out. |
| `CodeDiff.FormatDiffIdempotent` | lib/lambda/function.rb:93-96 | Applying `format_diff!` to its own result changes nothing. |
| `CodeDiff.MatchingZipSuppressesCode` | lib/lambda/function.rb:83-96 | Whatever the object-store fields hold, a zip file whose digest equals the observed checksum removes `code`, and only `code`. |
| `CodeDiff.UnmatchedCodeIsKept` | lib/lambda/function.rb:83-96 | When the comparison does not raise and the digests do not match (no code, no zip file, or a different checksum), the change map is returned unchanged. |
| `Dispatch.UpdateStreams` | lib/lambda/function.rb:106-115 | A list of stream ARNs gives one `create_event_source_mapping` per ARN, in list order. Each call names the desired function and starts at `TRIM_HORIZON`. Any other value fails before a call is made. |
| `Dispatch.UploadCode` | lib/lambda/function.rb:72-81 | Without a zip file there is no call. With a readable zip file there is exactly one `update_function_code`, carrying the file's contents. An unreadable file, or a value that is not a code hash, fails before a call is made. |
| `Dispatch.DeleteResource` | lib/lambda/function.rb:50-52 | Deletion is one `delete_function` call whose request holds exactly the key properties, with their desired values. |
| `Dispatch.EntryRun` | lib/lambda/function.rb:117-129 | Every call for one entry belongs to an update phase the entry's property is tagged with. An entry can only fail when it is `streams` or `code`, and then with one of the errors `process_diff` can raise. `StreamsEntryRun`, `CodeEntry`, `ConfigEntry`, `SilentEntry` and `EntryRunOnePhase` characterise it per property. |
| `Dispatch.Walk` | lib/lambda/function.rb:117-129 | A walk over entries none of which is `streams` or `code` completes. A failed walk ends with an error `process_diff` can raise. No walk issues `delete_function`. `WalkAppend` and `WalkStopsAtFailure` characterise the walk's order. |
| `Dispatch.ProcessDiff` | lib/lambda/function.rb:117-129 | Every call is justified by a change-map entry tagged with that call's phase. No call is `delete_function`. A change map without `streams` and `code` completes, and a failure is one `process_diff` can raise. `ConfigOnlyDiff` gives the exact trace for configuration-only maps. |
| `Dispatch.EntryRunOnePhase` | lib/lambda/function.rb:117-129 | All calls for one change-map entry belong to one update phase, and that phase is among the entry's property tags. |
| `Dispatch.SilentEntry` | lib/lambda/function.rb:117-129 | An entry for `function_name`, or for a property with no update phase, issues nothing and cannot fail. |
| `Dispatch.UntaggedEntry` | lib/lambda/function.rb:117-129 | An entry that is neither `streams`, `code` nor a configuration property issues nothing. |
| `Dispatch.ConfigEntry` | lib/lambda/function.rb:121-126 | A configuration property issues exactly one `update_function_configuration`. Its request holds only `function_name` and that single key/value. |
| `Dispatch.StreamsEntryRun` | lib/lambda/function.rb:119 | The `streams` entry is `update_streams` applied to the entry's value. |
| `Dispatch.StreamsEntry` | lib/lambda/function.rb:106-119 | A `streams` entry holding a list of ARNs completes, with one mapping call per ARN, in list order, each starting at `TRIM_HORIZON`. |
| `Dispatch.CodeEntry` | lib/lambda/function.rb:120 | The `code` entry is `update_code` applied to the change map's `code` value. |
| `Dispatch.WalkAppend` | lib/lambda/function.rb:117-129 | Dispatching two concatenated change maps means dispatching the first, then the second unless the first failed. |
| `Dispatch.ConfigOnlyDiff` | lib/lambda/function.rb:117-129 | A change map of configuration properties only never fails. It issues one configuration update per entry, in the map's order, each carrying that entry. |
| `Dispatch.WalkStopsAtFailure` | lib/lambda/function.rb:117-129 | When entry `k` is the first to fail, the trace is the calls of the entries before it plus the failing entry's own calls, and the walk ends with that entry's failure. |
| `Dispatch.WalkCallsFromEntries` | lib/lambda/function.rb:117-129 | Every call of a walk belongs to a phase that one of the walked entries is tagged with. |
| `Creation.CreateResource` | lib/lambda/function.rb:21-33 | At most 100 attempts are made, and every attempt but the last raised the transient error. The result is `ResourceTookToLong` exactly when the first 100 attempts all raised it; then there were exactly 100 attempts and 100 waits. Otherwise the last attempt decides: its response is returned, or its other error propagates without retry. |
| `Creation.CreateReadsCreateTagged` | lib/lambda/function.rb:35-48 | `create_function` sends each `create`-tagged property once, and nothing else from the desired properties. |
| `Properties.DeleteKeepsOrder` | lib/lambda/function.rb:94 | In a change map without repeated keys, `diff.delete(:code)` removes exactly the one `code` entry and keeps the others in their order. |
| `Properties.GetDelete` | lib/lambda/function.rb:94 | After `diff.delete(k)`, reading `k` gives nil and every other key reads as before. |
| `Observation.ResolveArns` | lib/lambda/function.rb:63-67 | The ARNs have the same length and order as the mappings, and each is the resolution of its mapping. |
| `Observation.ParseProperties` | lib/lambda/function.rb:62-70 | Parsing succeeds exactly when `event_source_mappings` holds a list of mappings; otherwise it fails on that key. After success, `event_source_mappings` is gone and `streams` holds the resolved ARNs, one per mapping and in order. Every other key keeps its value, and unique keys stay unique. |
| `Reconcile.MatchingCodeIsNotUploaded` | lib/lambda/function.rb:83-129 | Once `format_diff!` has seen a matching digest, `process_diff` issues no `update_function_code`, whatever else the change map holds. |
| `Reconcile.TimeoutChangeWithUnchangedCode` | lib/lambda/function.rb:83-129 | Take unchanged code next to a new timeout. The code entry is dropped, and the pass issues exactly one configuration update, carrying the timeout. |
| `Reconcile.NewStreamBound` | lib/lambda/function.rb:106-129 | A change map with one new stream issues exactly one mapping call, for that stream. |
| `Reconcile.UploadFollowsComparison` | lib/lambda/function.rb:72-91 | `update_code` calls the service exactly when `same_code?` compares digests. It raises exactly when `same_code?` raises or there is no code. The bytes it uploads are the ones whose digest `same_code?` compared. |

## Left out

- `raw_properties` (describe the function, list its mappings, nil when not found) only calls the remote service. The model takes its result as the raw bag given to `ParseProperties`.
- `create_event_source` is never called. It duplicates the loop body of `update_streams`.
- The payload `create_function` assembles is not modelled beyond the fields it reads. Among them is the zip file's contents, read with `File.read`; a failing read shows up as a `Raised` attempt.
- `sleep(@wait_time)` is counted, not timed. The wait value comes from the base resource class, which is not part of this model.
- Remote calls issued during dispatch (`create_event_source_mapping`, `update_function_code`, `update_function_configuration`) are assumed to return. Their own failures are not modelled. The same holds for `get_event_source_mapping` in `parse_properties`.
- The base `Resource` class is not part of this model. That covers change-map computation, `keys`, `properties?`, `Resource::Properties` and state persistence. Change maps and observed bags are inputs; `keys` is modelled directly from the table.
- The object-store code path (`s3_bucket`, `s3_key`) is never checksummed or uploaded, in the source as in the model.
- `lib/lambda.rb` only builds the AWS client from a region.
- `UpdateStreams`: a hash-valued `streams` entry is modelled as a failure, like any other non-list value. Ruby would iterate such a hash pair by pair. Desired and observed `streams` are always lists.
- `SameCode`: a `code` value that is neither nil nor a code hash is modelled as a failure. Ruby raises for strings, numbers and arrays, but would treat some other hash as code without a zip file.
- `UploadCode`: a `code` value that is neither nil nor a code hash is modelled as a failure, as for `SameCode`. Ruby would treat some other hash as code without a zip file and issue no call.
- `UploadFollowsComparison`: assumes the zip file does not change between the read in `same_code?` (function.rb:87) and the read in `update_code` (function.rb:75). Ruby reads the file twice; the model's `Env.readFile` is one pure function, so both reads give the same bytes.
- `ArnList` and `MappingList`: a Ruby array is encoded by one constructor per list field, ARNs for `streams` and mapping identifiers for `event_source_mappings`. An array of any other shape is not modelled.
