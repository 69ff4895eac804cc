/**
 * The metadata table of a Lambda function resource: for every property, the
 * lifecycle phases it takes part in. Every dispatch decision of the reconciler
 * is a lookup in this table.
 */
module Metadata {

  /** Property names of a Lambda function. The first ten are the ones the table
      describes; `CodeSha256` and `EventSourceMappings` only occur in the observed
      properties, and `Other` stands for any further key of a property bag. */
  datatype Prop =
    | FunctionName
    | Runtime
    | Handler
    | Role
    | Code
    | Description
    | Timeout
    | MemorySize
    | VpcConfig
    | Streams
    | CodeSha256
    | EventSourceMappings
    | Other(name: string)

  /** Lifecycle phase tags. */
  datatype Phase = Key | Create | UpdateConfig | UpdateCode | UpdateTriggers

  /** The frozen table, property name to its ordered phase tags. */
  const Table: map<Prop, seq<Phase>> := map[
    FunctionName := [Key, Create],
    Runtime      := [Create, UpdateConfig],
    Handler      := [Create, UpdateConfig],
    Role         := [Create, UpdateConfig],
    Code         := [Create, UpdateCode],
    Description  := [UpdateConfig],
    Timeout      := [UpdateConfig],
    MemorySize   := [UpdateConfig],
    VpcConfig    := [UpdateConfig],
    Streams      := [UpdateTriggers]
  ]

  /** The tags of a property; a property outside the table carries none. */
  function Tags(p: Prop): seq<Phase> {
    if p in Table then Table[p] else []
  }

  /** The phases whose change is pushed to the remote function by an update call. */
  predicate IsUpdatePhase(phase: Phase) {
    phase == UpdateConfig || phase == UpdateCode || phase == UpdateTriggers
  }

  /** Phase lookup: the properties whose tag list contains `phase`. */
  function Keys(phase: Phase): (ks: set<Prop>)
    ensures ks <= Table.Keys
  {
    set p | p in Table && phase in Table[p]
  }

  /** Phase lookup, listed phase by phase; in particular `function_name` is the
      only key property. */
  lemma KeysByPhase()
    ensures Keys(Key) == {FunctionName}
    ensures Keys(Create) == {FunctionName, Runtime, Handler, Role, Code}
    ensures Keys(UpdateConfig) == {Runtime, Handler, Role, Description, Timeout, MemorySize, VpcConfig}
    ensures Keys(UpdateCode) == {Code}
    ensures Keys(UpdateTriggers) == {Streams}
  {
    TagsByPhase();
    KeysAre(Key, {FunctionName});
    KeysAre(Create, {FunctionName, Runtime, Handler, Role, Code});
    KeysAre(UpdateConfig, {Runtime, Handler, Role, Description, Timeout, MemorySize, VpcConfig});
    KeysAre(UpdateCode, {Code});
    KeysAre(UpdateTriggers, {Streams});
  }

  /** The table read column by column. */
  lemma TagsByPhase()
    ensures forall p :: p in Table ==> (Key in Table[p] <==> p == FunctionName)
    ensures forall p :: p in Table ==> (Create in Table[p] <==> p in {FunctionName, Runtime, Handler, Role, Code})
    ensures forall p :: p in Table ==> (UpdateConfig in Table[p] <==> p in {Runtime, Handler, Role, Description, Timeout, MemorySize, VpcConfig})
    ensures forall p :: p in Table ==> (UpdateCode in Table[p] <==> p == Code)
    ensures forall p :: p in Table ==> (UpdateTriggers in Table[p] <==> p == Streams)
  {
    forall p | p in Table
      ensures Key in Table[p] <==> p == FunctionName
      ensures Create in Table[p] <==> p in {FunctionName, Runtime, Handler, Role, Code}
      ensures UpdateConfig in Table[p] <==> p in {Runtime, Handler, Role, Description, Timeout, MemorySize, VpcConfig}
      ensures UpdateCode in Table[p] <==> p == Code
      ensures UpdateTriggers in Table[p] <==> p == Streams
    {
      match p
      case FunctionName =>
      case Runtime =>
      case Handler =>
      case Role =>
      case Code =>
      case Description =>
      case Timeout =>
      case MemorySize =>
      case VpcConfig =>
      case Streams =>
    }
  }

  /** Phase lookup gives a set once the table's column for the phase is known. */
  lemma KeysAre(phase: Phase, expected: set<Prop>)
    requires expected <= Table.Keys
    requires forall p :: p in Table ==> (phase in Table[p] <==> p in expected)
    ensures Keys(phase) == expected
  {
  }

  /** Phase lookup agrees with the tag lists: a property is listed for a phase
      exactly when its tags contain the phase. */
  lemma KeysContainTagged(phase: Phase, p: Prop)
    ensures p in Keys(phase) <==> phase in Tags(p)
  {
  }

  /** A property carries at most one update phase, and the key property carries none,
      so one changed property leads to at most one kind of update call. */
  lemma AtMostOneUpdatePhase(p: Prop)
    ensures forall i, j :: 0 <= i < j < |Tags(p)| && IsUpdatePhase(Tags(p)[i]) ==> !IsUpdatePhase(Tags(p)[j])
    ensures p in Keys(Key) ==> forall ph :: IsUpdatePhase(ph) ==> ph !in Tags(p)
  {
    if p in Table {
      var tags := Tags(p);
      assert |tags| <= 2;
      assert |tags| == 2 ==> !IsUpdatePhase(tags[0]);
    }
  }
}
