/**
 * Property bags: the desired properties, the observed properties and the change
 * map the reconciler works on. A bag is an ordered association list, as a Ruby
 * Hash is: iteration follows insertion order, assigning to a present key keeps
 * its place, assigning to a new key appends it, and reading a missing key gives nil.
 */
module Properties {
  import opened Wrappers
  import opened Metadata

  type Path = string
  type Arn = string
  type Uuid = string
  newtype Byte = b: int | 0 <= b < 256
  type Bytes = seq<Byte>

  /** The `code` hash: a local zip file or object-store coordinates. */
  datatype CodeSpec = CodeSpec(
    zipFile: Option<Path>,
    s3Bucket: Option<string>,
    s3Key: Option<string>,
    s3ObjectVersion: Option<string>)

  /** The values a property can hold. `Nil` is Ruby's nil, `ArnList` the resolved
      `streams`, `MappingList` the raw `event_source_mappings` (their UUIDs). */
  datatype Value =
    | Nil
    | Str(s: string)
    | Num(n: int)
    | CodeRef(code: CodeSpec)
    | ArnList(arns: seq<Arn>)
    | MappingList(uuids: seq<Uuid>)
    | Vpc(subnetIds: seq<string>, securityGroupIds: seq<string>)

  datatype Entry = Entry(key: Prop, val: Value)

  type Bag = seq<Entry>

  /** Errors raised by the reconciler itself: a value without the method the code
      calls on it (`nil.each`, `nil[:zip_file]`), or a local file that cannot be read. */
  datatype Failure = WrongShape(prop: Prop) | ReadFailed(path: Path)

  /** The local collaborators: `File.read` (None when it raises) and the
      base64-rendered SHA-256 digest. Both are left uninterpreted. */
  datatype Env = Env(readFile: Path -> Option<Bytes>, digest: Bytes -> string)

  function KeysOf(b: Bag): set<Prop> {
    set e | e in b :: e.key
  }

  predicate UniqueKeys(b: Bag) {
    forall i, j :: 0 <= i < j < |b| ==> b[i].key != b[j].key
  }

  /** `bag[k]`: the value of the first entry for `k`, or nil. */
  function Get(b: Bag, k: Prop): (v: Value)
    ensures k !in KeysOf(b) ==> v == Nil
    ensures k in KeysOf(b) ==> Entry(k, v) in b
  {
    if b == [] then Nil
    else if b[0].key == k then b[0].val
    else Get(b[1..], k)
  }

  /** In a bag without repeated keys, reading a key gives the value of its entry. */
  lemma {:induction false} GetUnique(b: Bag, e: Entry)
    requires UniqueKeys(b)
    requires e in b
    ensures Get(b, e.key) == e.val
  {
    if b[0] != e {
      assert b[0].key != e.key by {
        var j :| 0 <= j < |b| && b[j] == e;
        assert j > 0;
      }
      GetUnique(b[1..], e);
    }
  }

  /** `bag.delete(k)`: every entry for `k` removed, the others kept in order. */
  function Delete(b: Bag, k: Prop): (r: Bag)
    ensures forall e :: e in r <==> e in b && e.key != k
    ensures KeysOf(r) == KeysOf(b) - {k}
    ensures forall k' :: k' != k ==> Get(r, k') == Get(b, k')
    ensures UniqueKeys(b) ==> UniqueKeys(r)
    ensures k !in KeysOf(b) ==> r == b
  {
    if b == [] then []
    else if b[0].key == k then Delete(b[1..], k)
    else [b[0]] + Delete(b[1..], k)
  }

  /** Reading after `bag.delete(k)` gives nil at `k` and the old value elsewhere. */
  lemma {:induction false} GetDelete(b: Bag, k: Prop, k': Prop)
    ensures Get(Delete(b, k), k) == Nil
    ensures k' != k ==> Get(Delete(b, k), k') == Get(b, k')
  {
    if b != [] {
      GetDelete(b[1..], k, k');
    }
  }

  /** In a bag without repeated keys, deleting a present key removes exactly its
      entry and keeps the others in their order. */
  lemma DeleteKeepsOrder(b: Bag, k: Prop)
    ensures UniqueKeys(b) && k in KeysOf(b) ==>
              exists i :: 0 <= i < |b| && b[i].key == k && Delete(b, k) == b[..i] + b[i + 1..]
  {
    if UniqueKeys(b) && k in KeysOf(b) {
      var i := DeletedIndex(b, k);
    }
  }

  /** The position of the entry `Delete` removes from a bag without repeated keys. */
  lemma {:induction false} DeletedIndex(b: Bag, k: Prop) returns (i: nat)
    requires UniqueKeys(b) && k in KeysOf(b)
    ensures i < |b| && b[i].key == k && Delete(b, k) == b[..i] + b[i + 1..]
  {
    if b[0].key == k {
      DeleteFirst(b);
      i := 0;
    } else {
      KeyInTail(b, k);
      UniqueTail(b);
      var j := DeletedIndex(b[1..], k);
      i := j + 1;
      SplitAfterHead(b, j);
    }
  }

  /** Cutting a non-empty bag around position `j + 1` is cutting its tail around `j`. */
  lemma SplitAfterHead(b: Bag, j: nat)
    requires j + 1 < |b|
    ensures b[..j + 1] + b[j + 2..] == [b[0]] + (b[1..][..j] + b[1..][j + 1..])
  {
    assert b[..j + 1] == [b[0]] + b[1..][..j];
    assert b[j + 2..] == b[1..][j + 1..];
  }

  lemma DeleteFirst(b: Bag)
    requires UniqueKeys(b) && b != []
    ensures Delete(b, b[0].key) == b[1..]
  {
    assert forall j :: 0 <= j < |b[1..]| ==> b[1..][j].key != b[0].key by {
      assert forall j :: 1 <= j < |b| ==> b[j].key != b[0].key;
    }
    assert forall e :: e in b[1..] ==> e.key != b[0].key;
  }

  lemma UniqueTail(b: Bag)
    requires UniqueKeys(b) && b != []
    ensures UniqueKeys(b[1..])
  {
    forall i, j | 0 <= i < j < |b[1..]|
      ensures b[1..][i].key != b[1..][j].key
    {
      assert b[1..][i] == b[i + 1] && b[1..][j] == b[j + 1];
    }
  }

  lemma KeyInTail(b: Bag, k: Prop)
    requires k in KeysOf(b) && b != [] && b[0].key != k
    ensures k in KeysOf(b[1..])
  {
    var e :| e in b && e.key == k;
    assert e in b[1..];
  }

  /** `bag[k] = v`: an existing entry is replaced in place, a new one appended. */
  function Put(b: Bag, k: Prop, v: Value): (r: Bag)
    ensures PutSpec(b, k, v, r)
  {
    if b == [] then [Entry(k, v)]
    else if b[0].key == k then
      var r := [Entry(k, v)] + b[1..];
      PutAtHead(b, v);
      r
    else
      var rest := Put(b[1..], k, v);
      PutBehindHead(b, k, v, rest);
      [b[0]] + rest
  }

  /** What `bag[k] = v` promises: the key set gains `k`, keys stay unique, a new key
      is appended at the end, and a present key keeps the bag's length. */
  predicate PutSpec(b: Bag, k: Prop, v: Value, r: Bag) {
    && KeysOf(r) == KeysOf(b) + {k}
    && (UniqueKeys(b) ==> UniqueKeys(r))
    && (k !in KeysOf(b) ==> r == b + [Entry(k, v)])
    && (k in KeysOf(b) ==> |r| == |b|)
  }

  lemma PutAtHead(b: Bag, v: Value)
    requires b != []
    ensures PutSpec(b, b[0].key, v, [Entry(b[0].key, v)] + b[1..])
  {
    var r := [Entry(b[0].key, v)] + b[1..];
    ConsKeys(b);
    ConsKeys(r);
    ConsUnique(b);
    ConsUnique(r);
  }

  lemma PutBehindHead(b: Bag, k: Prop, v: Value, rest: Bag)
    requires b != [] && b[0].key != k
    requires PutSpec(b[1..], k, v, rest)
    ensures PutSpec(b, k, v, [b[0]] + rest)
  {
    var r := [b[0]] + rest;
    ConsKeys(b);
    ConsKeys(r);
    ConsUnique(b);
    ConsUnique(r);
    assert r[1..] == rest;
    if k !in KeysOf(b) {
      assert b == [b[0]] + b[1..];
    }
  }

  /** The keys of a non-empty bag: its head's key and the keys of its tail. */
  lemma ConsKeys(b: Bag)
    requires b != []
    ensures KeysOf(b) == {b[0].key} + KeysOf(b[1..])
  {
    assert b == [b[0]] + b[1..];
  }

  /** A non-empty bag has unique keys exactly when its tail does and the head's key
      is not among the tail's. */
  lemma ConsUnique(b: Bag)
    requires b != []
    ensures UniqueKeys(b) <==> UniqueKeys(b[1..]) && b[0].key !in KeysOf(b[1..])
  {
    if UniqueKeys(b) {
      UniqueTail(b);
      forall e | e in b[1..]
        ensures e.key != b[0].key
      {
        var j :| 0 <= j < |b[1..]| && b[1..][j] == e;
        assert b[j + 1] == e;
      }
    }
    if UniqueKeys(b[1..]) && b[0].key !in KeysOf(b[1..]) {
      forall i, j | 0 <= i < j < |b|
        ensures b[i].key != b[j].key
      {
        assert b[j] == b[1..][j - 1];
        if i == 0 {
          assert b[j] in b[1..];
        } else {
          assert b[i] == b[1..][i - 1];
        }
      }
    }
  }

  /** Reading after `bag[k] = v` gives `v` at `k` and the old value elsewhere. */
  lemma {:induction false} GetPut(b: Bag, k: Prop, v: Value, k': Prop)
    ensures Get(Put(b, k, v), k) == v
    ensures k' != k ==> Get(Put(b, k, v), k') == Get(b, k')
  {
    if b != [] && b[0].key != k {
      GetPut(b[1..], k, v, k');
    }
  }
}
