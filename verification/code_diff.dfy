/**
 * Post-processing of the change map: the remote service reports the code of a
 * function only as a checksum, so a change map always lists `code`; it is
 * dropped again when the local zip file hashes to the checksum the service reports.
 */
module CodeDiff {
  import opened Wrappers
  import opened Metadata
  import opened Properties

  /** What `same_code?` answers: `false` without code, `nil` without a zip file
      (object-store code is never compared), and otherwise whether the digests agree.
      Only a positive comparison is truthy. */
  datatype Answer = NoCode | NoZipFile | Compared(same: bool) {
    predicate Truthy() {
      Compared? && same
    }
  }

  /** The suppression condition, stated on the inputs: the desired code names a
      zip file that can be read, and its digest is the observed `code_sha_256`. */
  predicate DigestMatches(env: Env, code: Value, current: Bag) {
    && code.CodeRef?
    && code.code.zipFile.Some?
    && env.readFile(code.code.zipFile.value).Some?
    && Get(current, CodeSha256) == Str(env.digest(env.readFile(code.code.zipFile.value).value))
  }

  /** The comparison raises: the desired code is neither nil nor a hash, or its zip file cannot be read. */
  predicate CompareRaises(env: Env, code: Value) {
    || (!code.Nil? && !code.CodeRef?)
    || (code.CodeRef? && code.code.zipFile.Some? && env.readFile(code.code.zipFile.value).None?)
  }

  /** `same_code?(code, current)`. */
  function SameCode(env: Env, code: Value, current: Bag): (r: Result<Answer, Failure>)
    ensures code == Nil ==> r == Ok(NoCode)
    ensures code.CodeRef? && code.code.zipFile.None? ==> r == Ok(NoZipFile)
    ensures r.Err? <==> CompareRaises(env, code)
    ensures r.Ok? && r.value.Truthy() <==> DigestMatches(env, code, current)
  {
    match code
    case Nil => Ok(NoCode)
    case CodeRef(spec) =>
      (match spec.zipFile
       case None => Ok(NoZipFile)
       case Some(path) =>
         match env.readFile(path)
         case None => Err(ReadFailed(path))
         case Some(zip) => Ok(Compared(Str(env.digest(zip)) == Get(current, CodeSha256))))
    case _ => Err(WrongShape(Code))
  }

  /** `format_diff!(diff)`: drops `code` when the desired code is unchanged. */
  function FormatDiff(env: Env, diff: Bag, current: Bag): (r: Result<Bag, Failure>)
    ensures r.Err? <==> CompareRaises(env, Get(diff, Code))
    ensures r.Ok? ==> forall e :: e in r.value <==> e in diff && (e.key != Code || !DigestMatches(env, Get(diff, Code), current))
    ensures r.Ok? ==> (Code in KeysOf(r.value) <==> Code in KeysOf(diff) && !DigestMatches(env, Get(diff, Code), current))
    ensures r.Ok? && UniqueKeys(diff) ==> UniqueKeys(r.value)
    ensures r.Ok? && UniqueKeys(diff) && r.value != diff ==>
              exists i :: 0 <= i < |diff| && diff[i].key == Code && r.value == diff[..i] + diff[i + 1..]
  {
    DeleteKeepsOrder(diff, Code);
    match SameCode(env, Get(diff, Code), current)
    case Err(f) => Err(f)
    case Ok(answer) => if answer.Truthy() then Ok(Delete(diff, Code)) else Ok(diff)
  }

  /** Formatting a formatted change map changes nothing more. */
  lemma FormatDiffIdempotent(env: Env, diff: Bag, current: Bag)
    requires FormatDiff(env, diff, current).Ok?
    ensures FormatDiff(env, FormatDiff(env, diff, current).value, current) == FormatDiff(env, diff, current)
  {
    var r := FormatDiff(env, diff, current).value;
    if DigestMatches(env, Get(diff, Code), current) {
      assert Get(r, Code) == Nil;
    }
  }

  /** Code suppression: whatever else the desired `code` hash holds, a zip file
      whose digest is the observed checksum removes `code` and nothing else. */
  lemma MatchingZipSuppressesCode(env: Env, diff: Bag, current: Bag, spec: CodeSpec, path: Path, zip: Bytes)
    requires Get(diff, Code) == CodeRef(spec)
    requires spec.zipFile == Some(path)
    requires env.readFile(path) == Some(zip)
    requires Get(current, CodeSha256) == Str(env.digest(zip))
    ensures FormatDiff(env, diff, current) == Ok(Delete(diff, Code))
    ensures Code !in KeysOf(FormatDiff(env, diff, current).value)
  {
  }

  /** Without code, without a zip file, or with a different checksum, the change map is kept as it is. */
  lemma UnmatchedCodeIsKept(env: Env, diff: Bag, current: Bag)
    requires !CompareRaises(env, Get(diff, Code))
    requires !DigestMatches(env, Get(diff, Code), current)
    ensures FormatDiff(env, diff, current) == Ok(diff)
  {
  }
}
