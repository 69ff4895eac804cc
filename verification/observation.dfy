/**
 * Normalising the observed properties: the service lists the function's event
 * source mappings as opaque handles, while the desired properties name the
 * streams themselves. Each handle is resolved to its stream ARN, and the list of
 * ARNs replaces the handles under `streams`, so both sides compare key for key.
 */
module Observation {
  import opened Wrappers
  import opened Metadata
  import opened Properties

  /** The ARNs of the mappings, one remote lookup each, in the order listed. */
  method ResolveArns(resolve: Uuid -> Arn, uuids: seq<Uuid>) returns (arns: seq<Arn>)
    ensures |arns| == |uuids|
    ensures forall i :: 0 <= i < |uuids| ==> arns[i] == resolve(uuids[i])
  {
    arns := [];
    var k := 0;
    while k < |uuids|
      invariant k <= |uuids|
      invariant |arns| == k
      invariant forall i :: 0 <= i < k ==> arns[i] == resolve(uuids[i])
    {
      arns := arns + [resolve(uuids[k])];
      k := k + 1;
    }
  }

  /** `parse_properties(raw_props)`. `resolve` is `get_event_source_mapping`
      followed by reading its `event_source_arn`. Without a list of mappings
      `parse_properties` raises (it iterates over nil). */
  method ParseProperties(resolve: Uuid -> Arn, raw: Bag) returns (r: Result<Bag, Failure>)
    ensures r.Ok? <==> Get(raw, EventSourceMappings).MappingList?
    ensures r.Err? ==> r.error == WrongShape(EventSourceMappings)
    ensures r.Ok? ==> EventSourceMappings !in KeysOf(r.value)
    ensures r.Ok? ==> Get(r.value, Streams).ArnList?
    ensures r.Ok? ==> |Get(r.value, Streams).arns| == |Get(raw, EventSourceMappings).uuids|
    ensures r.Ok? ==> forall i :: 0 <= i < |Get(raw, EventSourceMappings).uuids| ==>
              Get(r.value, Streams).arns[i] == resolve(Get(raw, EventSourceMappings).uuids[i])
    ensures r.Ok? ==> forall k :: k != EventSourceMappings && k != Streams ==> Get(r.value, k) == Get(raw, k)
    ensures r.Ok? ==> KeysOf(r.value) == KeysOf(raw) - {EventSourceMappings} + {Streams}
    ensures r.Ok? && UniqueKeys(raw) ==> UniqueKeys(r.value)
  {
    var mappings := Get(raw, EventSourceMappings);
    var props := Delete(raw, EventSourceMappings);
    if !mappings.MappingList? {
      return Err(WrongShape(EventSourceMappings));
    }
    var arns := ResolveArns(resolve, mappings.uuids);
    var parsed := Put(props, Streams, ArnList(arns));
    forall k
      ensures Get(parsed, Streams) == ArnList(arns)
      ensures k != Streams ==> Get(parsed, k) == Get(props, k)
    {
      GetPut(props, Streams, ArnList(arns), k);
      GetDelete(raw, EventSourceMappings, k);
    }
    r := Ok(parsed);
  }
}
