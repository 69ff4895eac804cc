/**
 * Creating the function. The service rejects a new function with an
 * invalid-parameter error while the role it names is still propagating, so
 * creation is retried, on that error only, a bounded number of times.
 */
module Creation {
  import opened Metadata
  import opened Properties

  /** The attempt ceiling, `@wait_attempts`. */
  const MaxAttempts: nat := 100

  /** What one `create_function` call did: returned a response, raised
      `InvalidParameterValueException`, or raised any other error (named). */
  datatype Attempt<R> = Succeeded(response: R) | InvalidParameterValue | Raised(error: string)

  /** How `create_resource` ends: with the response, with the error of the first
      attempt that raised something else, or with `ResourceTookToLong`. */
  datatype Outcome<R> = Created(response: R) | Failed(error: string) | TookTooLong

  /** The first `n` calls all raised the transient error. */
  ghost predicate TransientUpTo<R>(respond: nat -> Attempt<R>, n: nat) {
    forall i: nat :: i < n ==> respond(i).InvalidParameterValue?
  }

  /** `create_resource`. `respond(k)` is the outcome of the `k`-th call (from 0);
      `attempts` counts the calls made and `waits` the sleeps taken. */
  method CreateResource<R>(respond: nat -> Attempt<R>) returns (r: Outcome<R>, attempts: nat, waits: nat)
    ensures 1 <= attempts <= MaxAttempts
    ensures TransientUpTo(respond, attempts - 1)
    ensures r.TookTooLong? <==> TransientUpTo(respond, MaxAttempts)
    ensures r.TookTooLong? ==> attempts == MaxAttempts && waits == MaxAttempts
    ensures r.Created? ==> respond(attempts - 1) == Succeeded(r.response) && waits == attempts - 1
    ensures r.Failed? ==> respond(attempts - 1) == Raised(r.error) && waits == attempts - 1
  {
    attempts := 0;
    waits := 0;
    while attempts < MaxAttempts
      invariant attempts <= MaxAttempts
      invariant waits == attempts
      invariant TransientUpTo(respond, attempts)
    {
      var outcome := respond(attempts);
      attempts := attempts + 1;
      match outcome
      case InvalidParameterValue =>
        waits := waits + 1;
      case Succeeded(resp) =>
        return Created(resp), attempts, waits;
      case Raised(error) =>
        return Failed(error), attempts, waits;
    }
    r := TookTooLong;
  }

  /** The desired properties `create_function` reads, in the order it lists them
      (the code is sent with the zip file's contents in place of its path). */
  const CreateFields: seq<Prop> := [FunctionName, Runtime, Handler, Role, Code]

  /** `create_function` sends exactly the `create`-tagged properties, each once. */
  lemma CreateReadsCreateTagged()
    ensures forall p :: p in CreateFields <==> p in Keys(Create)
    ensures forall i, j :: 0 <= i < j < |CreateFields| ==> CreateFields[i] != CreateFields[j]
  {
    KeysByPhase();
  }
}
