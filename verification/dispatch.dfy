/**
 * Action dispatch: walking a change map in order and issuing, per changed
 * property, the remote calls its phase tags call for. Remote calls are recorded
 * as a trace; a failure stops the walk, and the calls issued before it stay issued.
 */
module Dispatch {
  import opened Wrappers
  import opened Metadata
  import opened Properties

  /** The fixed starting position of every new event source mapping. */
  const TrimHorizon: string := "TRIM_HORIZON"

  /** Remote calls to the Lambda service. `fn` is the desired `function_name`. */
  datatype Action =
    | CreateEventSourceMapping(eventSourceArn: Arn, fn: Value, startingPosition: string)
    | UpdateFunctionCode(fn: Value, zipFile: Bytes)
    | UpdateFunctionConfiguration(request: Bag)
    | DeleteFunction(request: Bag)

  /** The calls issued, and the failure that ended the walk, if any. */
  datatype Run = Run(calls: seq<Action>, failure: Option<Failure>) {
    predicate Completed() {
      failure.None?
    }
  }

  function Done(calls: seq<Action>): Run {
    Run(calls, None)
  }

  /** `a`, then `b` unless `a` failed. */
  function Then(a: Run, b: Run): Run {
    if a.Completed() then Run(a.calls + b.calls, b.failure) else a
  }

  /** The calls of `Then(a, b)` are those of `a`, and those of `b` when `a` completed. */
  lemma ThenCalls(a: Run, b: Run)
    ensures forall x :: x in Then(a, b).calls <==> x in a.calls || (a.Completed() && x in b.calls)
  {
  }

  /** The update phase a call belongs to. */
  function PhaseOf(a: Action): Phase {
    match a
    case CreateEventSourceMapping(_, _, _) => UpdateTriggers
    case UpdateFunctionCode(_, _) => UpdateCode
    case UpdateFunctionConfiguration(_) => UpdateConfig
    case DeleteFunction(_) => Key
  }

  /** `update_streams(streams)`: one mapping per stream ARN, in list order. */
  function UpdateStreams(fn: Value, streams: Value): (r: Run)
    ensures streams.ArnList? <==> r.Completed()
    ensures !streams.ArnList? ==> r == Run([], Some(WrongShape(Streams)))
    ensures streams.ArnList? ==> |r.calls| == |streams.arns|
    ensures streams.ArnList? ==> forall i :: 0 <= i < |streams.arns| ==>
              r.calls[i] == CreateEventSourceMapping(streams.arns[i], fn, TrimHorizon)
  {
    if streams.ArnList? then Done(MappingCalls(fn, streams.arns))
    else Run([], Some(WrongShape(Streams)))
  }

  function MappingCalls(fn: Value, arns: seq<Arn>): (calls: seq<Action>)
    ensures |calls| == |arns|
    ensures forall i :: 0 <= i < |arns| ==> calls[i] == CreateEventSourceMapping(arns[i], fn, TrimHorizon)
  {
    if arns == [] then []
    else [CreateEventSourceMapping(arns[0], fn, TrimHorizon)] + MappingCalls(fn, arns[1..])
  }

  /** `update_code(code)`: uploads the zip file's contents; no call without a zip
      file, since object-store code is not uploaded. */
  function UploadCode(env: Env, fn: Value, code: Value): (r: Run)
    ensures code.CodeRef? && code.code.zipFile.None? ==> r == Done([])
    ensures !code.CodeRef? ==> r == Run([], Some(WrongShape(Code)))
    ensures code.CodeRef? && code.code.zipFile.Some? ==>
              match env.readFile(code.code.zipFile.value)
              case None => r == Run([], Some(ReadFailed(code.code.zipFile.value)))
              case Some(zip) => r == Done([UpdateFunctionCode(fn, zip)])
  {
    match code
    case CodeRef(spec) =>
      (match spec.zipFile
       case None => Done([])
       case Some(path) =>
         match env.readFile(path)
         case None => Run([], Some(ReadFailed(path)))
         case Some(zip) => Done([UpdateFunctionCode(fn, zip)]))
    case _ => Run([], Some(WrongShape(Code)))
  }

  /** The configuration request for one changed property: the function name and that key/value only. */
  function ConfigRequest(fn: Value, e: Entry): Bag {
    [Entry(FunctionName, fn), e]
  }

  /** The errors `process_diff` itself can raise: iterating a `streams` value that
      is not a list, reading `zip_file` from a `code` value that is not a hash, or
      reading a zip file that cannot be read. */
  predicate DispatchFailure(f: Failure) {
    f == WrongShape(Streams) || f == WrongShape(Code) || f.ReadFailed?
  }

  /** The calls for one entry `key => val` of the change map `diff`: triggers, then code, then configuration. */
  function EntryRun(env: Env, fn: Value, diff: Bag, e: Entry): (r: Run)
    ensures forall a :: a in r.calls ==> PhaseOf(a) in Tags(e.key) && IsUpdatePhase(PhaseOf(a))
    ensures !r.Completed() ==> (e.key == Streams || e.key == Code) && DispatchFailure(r.failure.value)
  {
    KeysByPhase();
    KeysContainTagged(UpdateTriggers, e.key);
    KeysContainTagged(UpdateCode, e.key);
    KeysContainTagged(UpdateConfig, e.key);
    var triggers := if e.key in Keys(UpdateTriggers) then UpdateStreams(fn, e.val) else Done([]);
    var code := if e.key in Keys(UpdateCode) then UploadCode(env, fn, Get(diff, Code)) else Done([]);
    var config := if e.key in Keys(UpdateConfig) then Done([UpdateFunctionConfiguration(ConfigRequest(fn, e))]) else Done([]);
    assert forall a :: a in triggers.calls ==> PhaseOf(a) == UpdateTriggers;
    assert forall a :: a in code.calls ==> PhaseOf(a) == UpdateCode;
    assert forall a :: a in config.calls ==> PhaseOf(a) == UpdateConfig;
    Then(triggers, Then(code, config))
  }

  /** The entries `rest` of `diff`, dispatched in order until one fails. */
  function Walk(env: Env, fn: Value, diff: Bag, rest: Bag): (r: Run)
    ensures (forall e :: e in rest ==> e.key != Streams && e.key != Code) ==> r.Completed()
    ensures !r.Completed() ==> DispatchFailure(r.failure.value)
    ensures forall a :: a in r.calls ==> !a.DeleteFunction?
    decreases |rest|
  {
    if rest == [] then Done([])
    else
      assert forall e :: e in rest[1..] ==> e in rest;
      ThenCalls(EntryRun(env, fn, diff, rest[0]), Walk(env, fn, diff, rest[1..]));
      Then(EntryRun(env, fn, diff, rest[0]), Walk(env, fn, diff, rest[1..]))
  }

  /** `process_diff(diff)`. */
  function ProcessDiff(env: Env, fn: Value, diff: Bag): (r: Run)
    ensures forall a :: a in r.calls ==> exists e :: e in diff && PhaseOf(a) in Tags(e.key)
    ensures forall a :: a in r.calls ==> !a.DeleteFunction?
    ensures (forall e :: e in diff ==> e.key != Streams && e.key != Code) ==> r.Completed()
    ensures !r.Completed() ==> DispatchFailure(r.failure.value)
  {
    WalkCallsFromEntries(env, fn, diff, diff);
    Walk(env, fn, diff, diff)
  }

  /** `delete_resource`: one call, addressed by the key property alone. */
  function DeleteResource(desired: Bag): (a: Action)
    ensures a.DeleteFunction?
    ensures KeysOf(a.request) == Keys(Key)
    ensures forall e :: e in a.request ==> e.val == Get(desired, e.key)
  {
    KeysByPhase();
    DeleteFunction([Entry(FunctionName, Get(desired, FunctionName))])
  }

  // ---------------------------------------------------------------------------
  // Properties of one entry

  /** An entry for the key property, or for a property with no update phase,
      issues nothing and cannot fail. */
  lemma SilentEntry(env: Env, fn: Value, diff: Bag, e: Entry)
    requires e.key == FunctionName || forall ph :: IsUpdatePhase(ph) ==> ph !in Tags(e.key)
    ensures EntryRun(env, fn, diff, e) == Done([])
  {
    KeysContainTagged(UpdateTriggers, e.key);
    KeysContainTagged(UpdateCode, e.key);
    KeysContainTagged(UpdateConfig, e.key);
    KeysByPhase();
  }

  /** A configuration property issues exactly one configuration update carrying
      the function name and that single key/value. */
  lemma ConfigEntry(env: Env, fn: Value, diff: Bag, e: Entry)
    requires e.key in Keys(UpdateConfig)
    ensures EntryRun(env, fn, diff, e) == Done([UpdateFunctionConfiguration([Entry(FunctionName, fn), e])])
    ensures KeysOf(ConfigRequest(fn, e)) == {FunctionName, e.key}
  {
    KeysByPhase();
  }

  /** The streams entry creates one mapping per ARN in list order, each starting at `TRIM_HORIZON`. */
  lemma StreamsEntry(env: Env, fn: Value, diff: Bag, arns: seq<Arn>)
    ensures EntryRun(env, fn, diff, Entry(Streams, ArnList(arns))).Completed()
    ensures var calls := EntryRun(env, fn, diff, Entry(Streams, ArnList(arns))).calls;
            |calls| == |arns| &&
            forall i :: 0 <= i < |arns| ==> calls[i] == CreateEventSourceMapping(arns[i], fn, TrimHorizon)
  {
    KeysByPhase();
  }

  /** The code entry uploads the code the change map holds, if it names a zip file. */
  lemma CodeEntry(env: Env, fn: Value, diff: Bag, v: Value)
    ensures EntryRun(env, fn, diff, Entry(Code, v)) == UploadCode(env, fn, Get(diff, Code))
  {
    KeysByPhase();
  }

  /** All calls for one entry belong to a single update phase, the one its
      property is tagged with. */
  lemma EntryRunOnePhase(env: Env, fn: Value, diff: Bag, e: Entry)
    ensures forall a :: a in EntryRun(env, fn, diff, e).calls ==> PhaseOf(a) in Tags(e.key) && IsUpdatePhase(PhaseOf(a))
    ensures forall i, j :: 0 <= i < j < |EntryRun(env, fn, diff, e).calls| ==>
              PhaseOf(EntryRun(env, fn, diff, e).calls[i]) == PhaseOf(EntryRun(env, fn, diff, e).calls[j])
  {
    var calls := EntryRun(env, fn, diff, e).calls;
    var tags := Tags(e.key);
    AtMostOneUpdatePhase(e.key);
    forall i, j | 0 <= i < j < |calls|
      ensures PhaseOf(calls[i]) == PhaseOf(calls[j])
    {
      assert calls[i] in calls && calls[j] in calls;
      var x :| 0 <= x < |tags| && tags[x] == PhaseOf(calls[i]);
      var y :| 0 <= y < |tags| && tags[y] == PhaseOf(calls[j]);
    }
  }

  /** An entry for a property without an update phase issues nothing. */
  lemma UntaggedEntry(env: Env, fn: Value, diff: Bag, e: Entry)
    requires e.key != Streams && e.key != Code && e.key !in Keys(UpdateConfig)
    ensures EntryRun(env, fn, diff, e) == Done([])
  {
    KeysByPhase();
  }

  /** The streams entry is `update_streams` of its value. */
  lemma StreamsEntryRun(env: Env, fn: Value, diff: Bag, e: Entry)
    requires e.key == Streams
    ensures EntryRun(env, fn, diff, e) == UpdateStreams(fn, e.val)
  {
    KeysByPhase();
  }

  // ---------------------------------------------------------------------------
  // Properties of the walk

  lemma ThenAssociative(a: Run, b: Run, c: Run)
    ensures Then(Then(a, b), c) == Then(a, Then(b, c))
  {
  }

  /** Dispatching a change map in two parts is dispatching the first part, then
      the second unless the first failed. */
  lemma {:induction false} WalkAppend(env: Env, fn: Value, diff: Bag, xs: Bag, ys: Bag)
    ensures Walk(env, fn, diff, xs + ys) == Then(Walk(env, fn, diff, xs), Walk(env, fn, diff, ys))
  {
    if xs == [] {
      assert xs + ys == ys;
    } else {
      assert (xs + ys)[1..] == xs[1..] + ys;
      WalkAppend(env, fn, diff, xs[1..], ys);
      ThenAssociative(EntryRun(env, fn, diff, xs[0]), Walk(env, fn, diff, xs[1..]), Walk(env, fn, diff, ys));
    }
  }

  /** A change map of configuration properties only never fails and issues one
      configuration update per entry, in the map's order. */
  lemma {:induction false} ConfigOnlyDiff(env: Env, fn: Value, diff: Bag, rest: Bag)
    requires forall e :: e in rest ==> e.key in Keys(UpdateConfig)
    ensures Walk(env, fn, diff, rest).Completed()
    ensures |Walk(env, fn, diff, rest).calls| == |rest|
    ensures forall i :: 0 <= i < |rest| ==>
              Walk(env, fn, diff, rest).calls[i] == UpdateFunctionConfiguration([Entry(FunctionName, fn), rest[i]])
  {
    if rest != [] {
      ConfigEntry(env, fn, diff, rest[0]);
      ConfigOnlyDiff(env, fn, diff, rest[1..]);
      var tail := Walk(env, fn, diff, rest[1..]).calls;
      var calls := Walk(env, fn, diff, rest).calls;
      assert calls == [UpdateFunctionConfiguration(ConfigRequest(fn, rest[0]))] + tail;
      forall i | 0 < i < |rest|
        ensures calls[i] == UpdateFunctionConfiguration([Entry(FunctionName, fn), rest[i]])
      {
        assert calls[i] == tail[i - 1];
        assert rest[1..][i - 1] == rest[i];
      }
    }
  }

  /** A failing entry ends the walk: the calls issued are those of the entries
      before it and of the failing entry up to its failure. */
  lemma {:induction false} WalkStopsAtFailure(env: Env, fn: Value, diff: Bag, rest: Bag, k: nat)
    requires k < |rest|
    requires !EntryRun(env, fn, diff, rest[k]).Completed()
    requires Walk(env, fn, diff, rest[..k]).Completed()
    ensures Walk(env, fn, diff, rest) ==
            Run(Walk(env, fn, diff, rest[..k]).calls + EntryRun(env, fn, diff, rest[k]).calls,
                EntryRun(env, fn, diff, rest[k]).failure)
  {
    assert rest == rest[..k] + rest[k..];
    WalkAppend(env, fn, diff, rest[..k], rest[k..]);
    assert rest[k..][0] == rest[k];
    assert Walk(env, fn, diff, rest[k..]) == EntryRun(env, fn, diff, rest[k]);
  }

  /** Every call of a walk is one the phase tags of one of its entries call for. */
  lemma {:induction false} WalkCallsFromEntries(env: Env, fn: Value, diff: Bag, rest: Bag)
    ensures forall a :: a in Walk(env, fn, diff, rest).calls ==> exists e :: e in rest && PhaseOf(a) in Tags(e.key)
  {
    if rest != [] {
      EntryRunOnePhase(env, fn, diff, rest[0]);
      WalkCallsFromEntries(env, fn, diff, rest[1..]);
      var head := EntryRun(env, fn, diff, rest[0]);
      var tail := Walk(env, fn, diff, rest[1..]);
      forall a | a in Walk(env, fn, diff, rest).calls
        ensures exists e :: e in rest && PhaseOf(a) in Tags(e.key)
      {
        if a in head.calls {
          assert rest[0] in rest;
        } else {
          assert head.Completed() && a in tail.calls;
          var e :| e in rest[1..] && PhaseOf(a) in Tags(e.key);
          assert e in rest;
        }
      }
    }
  }
}
