/**
 * One update pass as the reconciler runs it on a change map: `format_diff!`,
 * then `process_diff` on what is left.
 */
module Reconcile {
  import opened Wrappers
  import opened Metadata
  import opened Properties
  import opened CodeDiff
  import opened Dispatch

  /** Code whose zip file hashes to the observed checksum is never uploaded again,
      whatever else the change map holds. */
  lemma MatchingCodeIsNotUploaded(env: Env, fn: Value, diff: Bag, current: Bag)
    requires FormatDiff(env, diff, current).Ok?
    requires DigestMatches(env, Get(diff, Code), current)
    ensures forall a :: a in ProcessDiff(env, fn, FormatDiff(env, diff, current).value).calls ==> !a.UpdateFunctionCode?
  {
    var formatted := FormatDiff(env, diff, current).value;
    WalkCallsFromEntries(env, fn, formatted, formatted);
    KeysByPhase();
    forall a | a in ProcessDiff(env, fn, formatted).calls
      ensures !a.UpdateFunctionCode?
    {
      var e :| e in formatted && PhaseOf(a) in Tags(e.key);
      if a.UpdateFunctionCode? {
        KeysContainTagged(UpdateCode, e.key);
      }
    }
  }

  /** A changed timeout next to unchanged code: the code entry is dropped, and the
      pass issues exactly one configuration update, carrying the new timeout. */
  lemma TimeoutChangeWithUnchangedCode(env: Env, fn: Value, current: Bag, spec: CodeSpec, path: Path, zip: Bytes, timeout: int)
    requires spec.zipFile == Some(path)
    requires env.readFile(path) == Some(zip)
    requires Get(current, CodeSha256) == Str(env.digest(zip))
    ensures var diff := [Entry(Code, CodeRef(spec)), Entry(Timeout, Num(timeout))];
            && FormatDiff(env, diff, current) == Ok([Entry(Timeout, Num(timeout))])
            && ProcessDiff(env, fn, [Entry(Timeout, Num(timeout))])
               == Done([UpdateFunctionConfiguration([Entry(FunctionName, fn), Entry(Timeout, Num(timeout))])])
  {
    UnchangedCodeDropped(env, current, spec, path, zip, [Entry(Timeout, Num(timeout))]);
    TimeoutOnly(env, fn, timeout);
  }

  lemma UnchangedCodeDropped(env: Env, current: Bag, spec: CodeSpec, path: Path, zip: Bytes, rest: Bag)
    requires spec.zipFile == Some(path)
    requires env.readFile(path) == Some(zip)
    requires Get(current, CodeSha256) == Str(env.digest(zip))
    requires Code !in KeysOf(rest)
    ensures FormatDiff(env, [Entry(Code, CodeRef(spec))] + rest, current) == Ok(rest)
  {
    var diff := [Entry(Code, CodeRef(spec))] + rest;
    assert Get(diff, Code) == CodeRef(spec);
    MatchingZipSuppressesCode(env, diff, current, spec, path, zip);
    assert Delete(diff, Code) == rest by {
      assert diff[1..] == rest;
    }
  }

  lemma TimeoutOnly(env: Env, fn: Value, timeout: int)
    ensures ProcessDiff(env, fn, [Entry(Timeout, Num(timeout))])
            == Done([UpdateFunctionConfiguration([Entry(FunctionName, fn), Entry(Timeout, Num(timeout))])])
  {
    var rest := [Entry(Timeout, Num(timeout))];
    KeysByPhase();
    ConfigOnlyDiff(env, fn, rest, rest);
    var run := ProcessDiff(env, fn, rest);
    assert run.calls == [run.calls[0]];
  }

  /** A change map holding one new stream: exactly one mapping is created, for it. */
  lemma NewStreamBound(env: Env, fn: Value, arn: Arn)
    ensures ProcessDiff(env, fn, [Entry(Streams, ArnList([arn]))])
            == Done([CreateEventSourceMapping(arn, fn, TrimHorizon)])
  {
    var diff := [Entry(Streams, ArnList([arn]))];
    StreamsEntry(env, fn, diff, [arn]);
    var entry := EntryRun(env, fn, diff, diff[0]);
    assert entry == Done([CreateEventSourceMapping(arn, fn, TrimHorizon)]);
    assert Walk(env, fn, diff, diff[1..]) == Done([]);
    assert entry.calls + [] == entry.calls;
  }

  /** `update_code` and `same_code?` read the same zip file: the upload happens
      exactly when the comparison compares digests, it raises exactly when the
      comparison raises or there is no code at all, and it sends the very bytes
      whose digest was compared. */
  lemma UploadFollowsComparison(env: Env, fn: Value, code: Value, current: Bag)
    ensures UploadCode(env, fn, code).calls != [] <==> SameCode(env, code, current).Ok? && SameCode(env, code, current).value.Compared?
    ensures !UploadCode(env, fn, code).Completed() <==> SameCode(env, code, current).Err? || code == Nil
    ensures forall a :: a in UploadCode(env, fn, code).calls ==>
              a.UpdateFunctionCode? && (Str(env.digest(a.zipFile)) == Get(current, CodeSha256) <==> DigestMatches(env, code, current))
  {
  }
}
