/**
 * The CouchDB driver of CouchDB_backend.js: the settings it forces, how it
 * maps documents to answers, and how `doBulk` turns a bulk of operations
 * into the documents of one `_bulk_docs` request.
 */
module CouchDBBackend {
  import opened Wrappers
  import opened Values
  import opened Entries
  import opened Flushing
  import Cfg = Settings

  /** A row of the `_all_docs` answer: the key, and `{rev}` or null when the key does not exist. */
  datatype Row = Row(key: Key, value: Value)

  /** The answer to the `_all_docs` request: an error, or its rows. */
  datatype AllDocs = AllDocsFailed | AllDocsRows(rows: seq<Row>)

  /** A document of the bulk request: `{_id, _rev?, value?, _deleted?}`. */
  datatype SetterDoc = SetterDoc(id: Key, rev: Option<Value>, value: Option<Payload>, deleted: bool)

  /**
   * How `doBulk` ends: the `_all_docs` error is rethrown, or the documents
   * are sent and the bulk's callback gets the error of that request.
   */
  datatype BulkOutcome = Threw(queried: seq<Key>) | Sent(queried: seq<Key>, docs: seq<SetterDoc>, err: Option<Fault>)

  /** How `remove` proceeds: answer at once (no document), or delete the revision read first. */
  datatype RemovePlan = AnswerAtOnce | DeleteRevision(rev: Value)

  /** The revisions the rows report, keyed by row key; a later row of the same key wins. */
  function Revisions(rows: seq<Row>): (r: map<Key, Value>)
    ensures r.Keys <= set j | 0 <= j < |rows| && rows[j].value != Null :: rows[j].key
  {
    if rows == [] then map[]
    else
      var row := rows[|rows| - 1];
      var revs := Revisions(rows[..|rows| - 1]);
      if row.value != Null then revs[row.key := Property(row.value, "rev")] else revs
  }

  /** A revision is recorded exactly for the keys of rows whose value is not null. */
  lemma {:induction false} RevisionsRecorded(rows: seq<Row>, k: Key)
    ensures k in Revisions(rows) <==> exists j :: 0 <= j < |rows| && rows[j].key == k && rows[j].value != Null
    ensures k in Revisions(rows) ==>
      exists j :: 0 <= j < |rows| && rows[j].key == k && rows[j].value != Null
        && Revisions(rows)[k] == Property(rows[j].value, "rev")
  {
    if rows != [] {
      var n := |rows| - 1;
      RevisionsRecorded(rows[..n], k);
      if rows[n].key == k && rows[n].value != Null {
      } else {
        if exists j :: 0 <= j < |rows| && rows[j].key == k && rows[j].value != Null {
          var j :| 0 <= j < |rows| && rows[j].key == k && rows[j].value != Null;
          assert j < n && rows[..n][j] == rows[j];
        }
        if k in Revisions(rows) {
          var j :| 0 <= j < n && rows[..n][j].key == k && rows[..n][j].value != Null
            && Revisions(rows[..n])[k] == Property(rows[..n][j].value, "rev");
          assert rows[j] == rows[..n][j];
        }
      }
    }
  }

  /** An operation `doBulk` sends a document for. */
  predicate IsWrite(op: Operation)
  {
    op.kind == SetOp || op.kind == RemoveOp
  }

  /**
   * The document for one write: its key, the recorded revision when that
   * is not null, and the value for a `set` or the deletion mark for a
   * `remove`.
   */
  function SetterOf(op: Operation, revs: map<Key, Value>): (d: SetterDoc)
    requires IsWrite(op)
    ensures d.id == op.key
    ensures d.rev.Some? <==> op.key in revs && revs[op.key] != Null
    ensures d.rev.Some? ==> d.rev.value == revs[op.key]
    ensures d.value.Some? <==> op.kind == SetOp
    ensures d.value.Some? ==> d.value.value == op.value
    ensures d.deleted <==> op.kind == RemoveOp
  {
    SetterDoc(
      op.key,
      if op.key in revs && revs[op.key] != Null then Some(revs[op.key]) else None,
      if op.kind == SetOp then Some(op.value) else None,
      op.kind == RemoveOp)
  }

  /** The documents of a bulk: one per `set` or `remove`, in bulk order; other operations give none. */
  function Setters(ops: seq<Operation>, revs: map<Key, Value>): (r: seq<SetterDoc>)
    ensures |r| <= |ops|
    ensures forall i :: 0 <= i < |r| ==> (r[i].deleted <==> r[i].value.None?)
    ensures forall i :: 0 <= i < |r| && r[i].rev.Some? ==> r[i].id in revs && r[i].rev.value == revs[r[i].id]
    ensures forall i :: 0 <= i < |r| && r[i].id in revs && revs[r[i].id] != Null ==> r[i].rev.Some?
  {
    if ops == [] then []
    else
      var op := ops[|ops| - 1];
      Setters(ops[..|ops| - 1], revs) + if IsWrite(op) then [SetterOf(op, revs)] else []
  }

  /** The operation a document stands for; a deletion carries the null value the flush gives removes. */
  function OperationOf(d: SetterDoc): Operation
  {
    if d.deleted then Operation(RemoveOp, d.id, Plain(Null))
    else Operation(SetOp, d.id, if d.value.Some? then d.value.value else Plain(Null))
  }

  /** The operations a list of documents stands for. */
  function OperationsOf(docs: seq<SetterDoc>): (ops: seq<Operation>)
    ensures |ops| == |docs| && forall i :: 0 <= i < |docs| ==> ops[i] == OperationOf(docs[i])
  {
    seq(|docs|, i requires 0 <= i < |docs| => OperationOf(docs[i]))
  }

  /** A bulk of writes as the flush builds them: every `remove` carries the null value. */
  predicate WritesOnly(ops: seq<Operation>)
  {
    forall i :: 0 <= i < |ops| ==> IsWrite(ops[i]) && (ops[i].kind == RemoveOp ==> ops[i].value == Plain(Null))
  }

  /** The documents of a bulk of writes describe exactly that bulk, in order. */
  lemma {:induction false} SettersDescribeBulk(ops: seq<Operation>, revs: map<Key, Value>)
    requires WritesOnly(ops)
    ensures OperationsOf(Setters(ops, revs)) == ops
  {
    if ops != [] {
      var n := |ops| - 1;
      assert WritesOnly(ops[..n]) by {
        forall i | 0 <= i < n ensures ops[..n][i] == ops[i] { }
      }
      SettersDescribeBulk(ops[..n], revs);
      assert ops == ops[..n] + [ops[n]];
    }
  }

  /** The flush's bulk consists of writes only, so its documents describe it exactly. */
  lemma BatchDocuments(buffer: map<Key, Entry>, order: seq<Key>, json: bool, revs: map<Key, Value>)
    requires Scannable(buffer, json)
    ensures OperationsOf(Setters(Batch(buffer, order, json), revs)) == Batch(buffer, order, json)
  {
    var ops := Batch(buffer, order, json);
    forall i | 0 <= i < |ops|
      ensures IsWrite(ops[i]) && (ops[i].kind == RemoveOp ==> ops[i].value == Plain(Null))
    {
      var k := DirtyKeys(buffer, order)[i];
      if ops[i].kind == RemoveOp {
        assert buffer[k].value == Null;
      }
    }
    SettersDescribeBulk(ops, revs);
  }

  /** The driver object and the settings object it was given. */
  class Remote {
    const settings: Cfg.SettingsRecord

    /** The constructor forces `cache` 100, `writeInterval` 500 and `json` off. */
    constructor (settings: Cfg.SettingsRecord)
      modifies settings
      ensures this.settings == settings
      ensures settings.AsLayer() == Cfg.Layer(Some(100), Some(500), Some(false))
      ensures settings.invalid == old(settings.invalid)
    {
      this.settings := settings;
      settings.cache := Some(100);
      settings.writeInterval := Some(500);
      settings.json := Some(false);
    }

    /** `get` answers the document's `value`, null without a document, and never an error. */
    method Get(key: Key, er: Option<Fault>, doc: Value) returns (err: Option<Fault>, value: Value)
      ensures err.None?
      ensures doc == Null ==> value == Null
      ensures doc != Null ==> value == Property(doc, "value")
    {
      err := None;
      if doc == Null {
        value := Null;
      } else {
        value := Property(doc, "value");
      }
    }

    /**
     * `set`: the document saved for a key, naming the revision read first
     * when there is a document; the save's own answer goes to the callback.
     */
    method Set(key: Key, value: Payload, er: Option<Fault>, doc: Value) returns (saved: SetterDoc)
      ensures OperationOf(saved) == Operation(SetOp, key, value)
      ensures saved.rev.Some? <==> doc != Null
      ensures saved.rev.Some? ==> saved.rev.value == Property(doc, "_rev")
    {
      if doc == Null {
        saved := SetterDoc(key, None, Some(value), false);
      } else {
        saved := SetterDoc(key, Some(Property(doc, "_rev")), Some(value), false);
      }
    }

    /**
     * `remove`: without a document it answers at once, otherwise it
     * deletes the revision it read; either way the answer carries no error.
     */
    method Remove(key: Key, er: Option<Fault>, doc: Value) returns (plan: RemovePlan, err: Option<Fault>)
      ensures plan.AnswerAtOnce? <==> doc == Null
      ensures plan.DeleteRevision? ==> plan.rev == Property(doc, "_rev")
      ensures err.None?
    {
      if doc == Null {
        plan := AnswerAtOnce;
      } else {
        plan := DeleteRevision(Property(doc, "_rev"));
      }
      err := None;
    }

    /** The `_all_docs` key list: the bulk's keys in bulk order. */
    method CollectKeys(bulk: seq<Operation>) returns (keys: seq<Key>)
      ensures keys == KeysOfBatch(bulk)
    {
      keys := [];
      var i := 0;
      while i < |bulk|
        invariant 0 <= i <= |bulk|
        invariant keys == KeysOfBatch(bulk[..i])
      {
        keys := keys + [bulk[i].key];
        i := i + 1;
      }
      assert bulk[..i] == bulk;
    }

    /** The revision map filled from the `_all_docs` rows. */
    method CollectRevisions(rows: seq<Row>) returns (revs: map<Key, Value>)
      ensures revs == Revisions(rows)
    {
      revs := map[];
      var j := 0;
      while j < |rows|
        invariant 0 <= j <= |rows|
        invariant revs == Revisions(rows[..j])
      {
        assert rows[..j + 1][..j] == rows[..j];
        if rows[j].value != Null {
          revs := revs[rows[j].key := Property(rows[j].value, "rev")];
        }
        j := j + 1;
      }
      assert rows[..j] == rows;
    }

    /** The documents pushed for the bulk, one write at a time. */
    method CollectSetters(bulk: seq<Operation>, revs: map<Key, Value>) returns (setters: seq<SetterDoc>)
      ensures setters == Setters(bulk, revs)
    {
      setters := [];
      var i := 0;
      while i < |bulk|
        invariant 0 <= i <= |bulk|
        invariant setters == Setters(bulk[..i], revs)
      {
        assert bulk[..i + 1][..i] == bulk[..i];
        var item := bulk[i];
        var rev: Option<Value> := None;
        if item.key in revs && revs[item.key] != Null {
          rev := Some(revs[item.key]);
        }
        if item.kind == SetOp {
          setters := setters + [SetterDoc(item.key, rev, Some(item.value), false)];
        } else if item.kind == RemoveOp {
          setters := setters + [SetterDoc(item.key, rev, None, true)];
        }
        i := i + 1;
      }
      assert bulk[..i] == bulk;
    }

    /**
     * `doBulk`: query the revisions of the bulk's keys, rethrow a failed
     * query, otherwise send one document per write and hand the bulk's
     * callback the error of that request.
     */
    method DoBulk(bulk: seq<Operation>, allDocs: AllDocs, bulkErr: Option<Fault>) returns (outcome: BulkOutcome)
      ensures outcome.queried == KeysOfBatch(bulk)
      ensures outcome.Threw? <==> allDocs.AllDocsFailed?
      ensures outcome.Sent? ==> outcome.docs == Setters(bulk, Revisions(allDocs.rows)) && outcome.err == bulkErr
    {
      var keys := CollectKeys(bulk);
      if allDocs.AllDocsFailed? {
        outcome := Threw(keys);
      } else {
        var revs := CollectRevisions(allDocs.rows);
        var setters := CollectSetters(bulk, revs);
        outcome := Sent(keys, setters, bulkErr);
      }
    }
  }
}
