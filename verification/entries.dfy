/** The records the buffered store keeps and exchanges with a backend. */
module Entries {
  import opened Wrappers
  import opened Values

  type Key = string

  /** An error handed to a callback: an opaque backend error, or a failed `JSON.parse`. */
  datatype Fault = Remote(code: nat) | Parse

  /**
   * A completion callback, known only by identity: one a caller supplied,
   * or the default a buffered write installs when it has none, which
   * rethrows any error it receives.
   */
  datatype Callback = Caller(id: nat) | Rethrow

  /** One call of a callback, with the error it was given. */
  datatype Invocation = Invocation(callback: Callback, err: Option<Fault>)

  /** A buffer entry: `{value, dirty, writingInProgress, timestamp, callbacks}`. */
  datatype Entry = Entry(value: Value, dirty: bool, writingInProgress: bool, timestamp: int, callbacks: seq<Callback>)

  /** What gc may delete: an entry that is neither dirty nor being written. */
  predicate Evictable(e: Entry)
  {
    !e.dirty && !e.writingInProgress
  }

  /** The `type` tag of a bulk operation. */
  datatype OpType = SetOp | RemoveOp | OtherOp(tag: string)

  /**
   * A value as it crosses to the backend: `Text(v)` is `JSON.stringify(v)`,
   * kept symbolic; `Plain(v)` is the value itself.
   */
  datatype Payload = Text(doc: Value) | Plain(doc: Value)

  /** One element of a bulk: `{type, key, value}`. */
  datatype Operation = Operation(kind: OpType, key: Key, value: Payload)

  predicate Distinct<T(==)>(s: seq<T>)
  {
    forall i, j :: 0 <= i < j < |s| ==> s[i] != s[j]
  }

  /** In a list without repetitions, no element occurs before its own position. */
  lemma DistinctAt<T>(s: seq<T>, i: nat)
    requires Distinct(s) && i < |s|
    ensures s[i] !in s[..i]
  {
    forall j | 0 <= j < i ensures s[j] != s[i] { }
  }

  /** The prefix one longer is the prefix with the next element appended. */
  lemma PrefixStep<T>(s: seq<T>, i: nat)
    requires i < |s|
    ensures s[..i + 1] == s[..i] + [s[i]]
  {
  }
}
