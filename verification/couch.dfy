/**
 * The CouchDB client of couch.js: the address of a key, and the shadow
 * revisions it keeps on the shared `couch` object (a property
 * `_shadowCouchRev_<key>` per key) so that a PUT can name the revision it
 * replaces.
 */
module CouchClient {
  import opened Wrappers
  import opened Values
  import opened Escaping

  /** The revision recorded for a key; a key never recorded reads as undefined (`Null`). */
  function RevisionOf(revs: map<string, Value>, key: string): Value
  {
    if key in revs then revs[key] else Null
  }

  /** The object a PUT sends: `{value}`, with `_rev` when the recorded revision is truthy. */
  function PutDocument(value: Value, revision: Value): (doc: Value)
    ensures doc.Obj? && doc.inherited == map[]
    ensures doc.own.Keys == if Truthy(revision) then {"value", "_rev"} else {"value"}
    ensures Property(doc, "value") == value
    ensures Truthy(revision) ==> Property(doc, "_rev") == revision
  {
    var fields := map["value" := value];
    Obj(if Truthy(revision) then fields["_rev" := revision] else fields, map[])
  }

  /** The shadow revisions after a PUT's response: a truthy `rev` replaces the key's revision. */
  function AfterPutResponse(revs: map<string, Value>, key: string, response: Value): map<string, Value>
  {
    if Truthy(Property(response, "rev")) then revs[key := Property(response, "rev")] else revs
  }

  /** The revision a PUT's response reports is the one the next PUT of that key names. */
  lemma NextPutNamesReportedRevision(revs: map<string, Value>, key: string, response: Value, value: Value)
    requires Truthy(Property(response, "rev"))
    ensures Property(PutDocument(value, RevisionOf(AfterPutResponse(revs, key, response), key)), "_rev")
         == Property(response, "rev")
  {
  }

  /** A response for one key leaves the revisions of every other key as they were. */
  lemma PutResponseKeepsOtherKeys(revs: map<string, Value>, key: string, response: Value, other: string)
    requires other != key
    ensures RevisionOf(AfterPutResponse(revs, key, response), other) == RevisionOf(revs, other)
  {
  }

  /** A response without a truthy `rev` leaves every recorded revision in place. */
  lemma PutResponseWithoutRev(revs: map<string, Value>, key: string, response: Value)
    requires !Truthy(Property(response, "rev"))
    ensures AfterPutResponse(revs, key, response) == revs
  {
  }

  /** How the server answers a request: 404, or a status with the body arriving in chunks. */
  datatype Response = NotFound | Body(chunks: seq<string>)

  /** The calls `doCall` makes to its callback, each with a falsy error: the body chunk, or null. */
  function ChunkCalls(chunks: seq<string>): (r: seq<Option<string>>)
    ensures |r| == |chunks| && forall i :: 0 <= i < |r| ==> r[i] == Some(chunks[i])
  {
    seq(|chunks|, i requires 0 <= i < |chunks| => Some(chunks[i]))
  }

  /**
   * The callback calls of `doCall` as written: the response handler
   * answers null on 404 and registers the chunk listener otherwise, and
   * then tests `method='PUT'`, an assignment whose value is truthy, so it
   * answers null once more for every method; the chunks arrive after that.
   */
  function ResponseCallsAsWritten(verb: string, response: Response): (r: seq<Option<string>>)
    ensures r != [] && r[0] == None
    ensures |r| == if response.NotFound? then 2 else 1 + |response.chunks|
  {
    match response
    case NotFound => [None, None]
    case Body(chunks) => [None] + ChunkCalls(chunks)
  }

  /** A GET that finds nothing is answered twice, and a GET that finds a document is answered null before its body. */
  lemma GetAnsweredTwice()
    ensures |ResponseCallsAsWritten("GET", NotFound)| == 2
    ensures ResponseCallsAsWritten("GET", Body(["{}"]))[0] == None
  {
  }

  /** The callback calls of `doCall` with the comparison `method == 'PUT'` it evidently means. */
  function ResponseCalls(verb: string, response: Response): (r: seq<Option<string>>)
    ensures verb != "PUT" && response.NotFound? ==> r == [None]
    ensures verb != "PUT" && response.Body? ==> r == ChunkCalls(response.chunks)
  {
    match response
    case NotFound => [None] + (if verb == "PUT" then [None] else [])
    case Body(chunks) => (if verb == "PUT" then [None] else []) + ChunkCalls(chunks)
  }

  /** With the comparison, a request other than PUT gets exactly one answer per chunk, and one null answer on 404. */
  lemma OnlyPutGetsTheExtraAnswer(verb: string, response: Response)
    ensures |ResponseCalls(verb, response)| == (if response.NotFound? then 1 else |response.chunks|) + (if verb == "PUT" then 1 else 0)
    ensures verb == "PUT" ==> ResponseCalls(verb, response) == ResponseCallsAsWritten(verb, response)
  {
  }

  /** The `couch` object: its configuration and the shadow revisions stored on it. */
  class Couch {
    const backendAddress: string
    const backendToken: string
    /** `couch['_shadowCouchRev_' + key]` for every key that has one. */
    var shadowRevs: map<string, Value>

    constructor (backendAddress: string, backendToken: string)
      ensures this.backendAddress == backendAddress && this.backendToken == backendToken
      ensures shadowRevs == map[]
    {
      this.backendAddress := backendAddress;
      this.backendToken := backendToken;
      shadowRevs := map[];
    }

    /** `keyToAddress`: the address prefix followed by the escaped key. */
    method KeyToAddress(key: string) returns (address: string)
      ensures address == backendAddress + Escaped(key)
      ensures |address| >= |backendAddress| && address[..|backendAddress|] == backendAddress
      ensures Unescaped(address[|backendAddress|..]) == key
    {
      var name := EscapeKey(key);
      address := backendAddress + name;
      assert address[|backendAddress|..] == name;
      UnescapeEscaped(key);
    }

    /**
     * The body `set` sends: the value, and the revision recorded for the
     * key when it is truthy.
     */
    method PutBody(key: string, value: Value) returns (doc: Value)
      ensures doc == PutDocument(value, RevisionOf(shadowRevs, key))
      ensures "_rev" in doc.own <==> key in shadowRevs && Truthy(shadowRevs[key])
    {
      var revision := if key in shadowRevs then shadowRevs[key] else Null;
      var fields := map["value" := value];
      if Truthy(revision) {
        fields := fields["_rev" := revision];
      }
      doc := Obj(fields, map[]);
    }

    /**
     * The handler of a PUT's response: parse it (`None` when `JSON.parse`
     * throws), record a truthy `rev`, and call back. Reading `rev` of a
     * parsed `null` throws as well; `called` says whether the handler got
     * as far as calling back.
     */
    method PutAnswered(key: string, parsed: Option<Value>) returns (called: bool)
      modifies this`shadowRevs
      ensures called <==> parsed.Some? && parsed.value != Null
      ensures called ==> shadowRevs == AfterPutResponse(old(shadowRevs), key, parsed.value)
      ensures !called ==> shadowRevs == old(shadowRevs)
    {
      called := false;
      if parsed.Some? && parsed.value != Null {
        var rev := Property(parsed.value, "rev");
        if Truthy(rev) {
          shadowRevs := shadowRevs[key := rev];
        }
        called := true;
      }
    }

    /**
     * The handler of a GET's response: parse it, record its `_rev`
     * whatever it is (an absent one records undefined), and hand back its
     * `value`; `None` when parsing or reading a property of `null` throws.
     */
    method GetAnswered(key: string, parsed: Option<Value>) returns (value: Option<Value>)
      modifies this`shadowRevs
      ensures value.Some? <==> parsed.Some? && parsed.value != Null
      ensures value.Some? ==> value.value == Property(parsed.value, "value")
      ensures value.Some? ==> shadowRevs == old(shadowRevs)[key := Property(parsed.value, "_rev")]
      ensures value.None? ==> shadowRevs == old(shadowRevs)
    {
      value := None;
      if parsed.Some? && parsed.value != Null {
        shadowRevs := shadowRevs[key := Property(parsed.value, "_rev")];
        value := Some(Property(parsed.value, "value"));
      }
    }
  }
}
