# ueberRemoteStorage: a Dafny model of the buffered key/value front

The system is a key/value store that a Node.js server puts in front of a
remote database. Callers store JSON-like values under string keys. Their
calls pass through three layers:

- **The front** (`CloneAndAtomicLayer.js`). It picks a driver by its type
  name. It clones every value on the way in and on the way out. It emits
  each call as an operation record on a channel named after the key, so
  that the operations on one key run one at a time.
- **The cache and write buffer** (`CacheAndBufferLayer.js`). It keeps one
  entry per key: the value, a dirty flag, a `writingInProgress` flag, a
  timestamp and the write callbacks still to be called. Reads are answered
  from the buffer when they can be. Writes are buffered, and a periodic
  `flush` sends every dirty entry to the driver in one bulk. A garbage
  collector evicts the oldest clean, idle entries once the buffer is full.
  `getSub` and `setSub` reach into a stored document along a path.
- **The drivers.** `testStub_backend.js` is an in-memory map.
  `CouchDB_backend.js` turns a bulk into one `_bulk_docs` request, naming
  the revision of every document it replaces. `couch.js` and `dav.js` are
  HTTP clients. They escape keys into addresses (a key `u…u_…` gets one
  more `u`), and `couch.js` keeps a shadow revision per key.

The model has one module per concern:

| Module | Contents |
|---|---|
| `Values` | JavaScript values, truthiness, `clone` |
| `Settings` | The three-level settings merge, and the mutable settings object drivers write to |
| `Paths` | The `getSub`/`setSub` walks |
| `Entries` | Buffer entries, callbacks and bulk operations |
| `Eviction` | `gc` as a function on the buffer table |
| `Flushing` | The flush scan and its completion as functions |
| `Buffering` | Reads and buffered writes as functions |
| `CacheStore` | The `Store` class: every method of the layer, proved against those functions under one invariant |
| `Escaping` | Key escaping |
| `CouchClient`, `DavClient` | The two HTTP clients |
| `StubBackend`, `CouchDBBackend` | The two drivers |
| `Front` | The front |

Time, the backend's replies and parse results are parameters of the
methods (`now`, `reply`, `parsed`). Every callback the store calls is
recorded in a `log` of invocations.

One callback is special. When a write comes without a write callback, the
source pushes a default one that rethrows the error it is given. It is
modelled as the callback `Rethrow`. Calling it with an error ends the
flush completion with a throw. The invariant then holds with
`isFlushing` still true and no bulk in flight, which is the state the
source is left in.

Three behaviours of the code are worth knowing before reading the
contracts:

- **The miss count.** `CacheAndBufferLayer.js:177` increments
  `bufferLength` on every read miss, also with `cache == 0`, when
  line 173 inserts nothing. `bufferLength` therefore counts the entries
  only while caching is on. This is what the invariant states.
- **Reads during a flush.** With `cache == 0`, a read is answered from
  the buffer only while the entry is dirty (`CacheAndBufferLayer.js:146`).
  Once the flush scan has cleared the flag, a read goes to the driver
  even though the write is still in flight.
  `Buffering.InFlightReadMisses` states this.
- **`Content-Length`.** `dav.js:26` tests `if(value)`, so a request
  carrying the empty string, `0` or `false` gets no `Content-Length`
  header (`DavClient.Dav.Prepare`).

## Model

| member | source | states |
|---|---|---|
| Settings.Override | CacheAndBufferLayer.js:59-72 | Each setting a layer gives replaces the current one, each it leaves out keeps it; an absent layer changes nothing |
| Settings.MergePrecedence | CacheAndBufferLayer.js:31-72 | Each setting is the caller's if given, else the driver's if given, else the default (cache 1000, writeInterval 100, json true) |
| Values.Property | CouchDB_backend.js:133-135 | A property read on a non-object is undefined; an own property shadows an inherited one; a missing one is undefined |
| Values.Clone | CacheAndBufferLayer.js:489-525 | clone succeeds exactly on values without unsupported objects and without an object that owns or inherits a `hasOwnProperty` property, on which the call at line 519 throws; the copy is plain data with the same own properties, and inherited properties are dropped |
| Values.CloneOfPlain | CloneAndAtomicLayer.js:153-186 | Cloning plain data gives it back unchanged |
| Values.CloneIdempotent | CloneAndAtomicLayer.js:153-189 | Cloning a clone gives the same clone |
| Paths.Lookup | CacheAndBufferLayer.js:333-335 | `parent[step]`: an object's own property, else its inherited one; an array's element at a numeric name, or its length; a string's character or its UTF-16 length; nothing on null and other primitives |
| Paths.IndexNamesElement | CacheAndBufferLayer.js:333-335 | A numeric accessor and its decimal name address the same array index, below 2^32 - 1 |
| Paths.ArrayIndexInjective | CacheAndBufferLayer.js:333-335 | Two property names that denote the same array index are the same name |
| Paths.CanonicalIsDecimal | CacheAndBufferLayer.js:333-335 | A canonical digit string is the decimal spelling of the index it denotes |
| Paths.DecimalIsCanonical | CacheAndBufferLayer.js:333-335 | The decimal spelling of an index is canonical and denotes that index |
| Paths.Walk | CacheAndBufferLayer.js:328-343 | The empty path yields the document; a non-empty path from null or another primitive without properties yields null |
| Paths.WalkConcat | CacheAndBufferLayer.js:328-343 | Walking a path in two parts is walking it whole |
| Paths.Descend | CacheAndBufferLayer.js:284-293 | An intermediate step enters the child that exists and creates `{}` where it is missing; a null, boolean or number parent throws; an array index up to the length is followed |
| Paths.Assign | CacheAndBufferLayer.js:298 | The last assignment throws on null, always succeeds on an object (keeping its prototype), and on an array updates or appends at an index up to the length |
| Paths.SetPath | CacheAndBufferLayer.js:281-298 | setSub on null throws; a completed walk keeps the top object's prototype, and grows the top array by at most one element |
| Paths.AssignThenLookup | CacheAndBufferLayer.js:298 | After the final assignment, the last step of the path reads the value assigned |
| Paths.AssignKeepsOtherSlots | CacheAndBufferLayer.js:298 | The final assignment leaves every other property name of the parent as it was, except an array's `length`, which becomes the new element count |
| Paths.WalkEmptyObject | CacheAndBufferLayer.js:330-343 | Walking a non-empty path into a freshly created `{}` gives null |
| Paths.SetPathYieldsContainer | CacheAndBufferLayer.js:281-298 | A successful setSub walk leaves an object or array at the top |
| Paths.SetThenWalk | CacheAndBufferLayer.js:281-298 | After setSub places a value along a path, getSub's walk along that path finds it |
| Paths.SetKeepsSiblings | CacheAndBufferLayer.js:281-298 | setSub along one path leaves the value at every path that leaves it at a differently named step other than `length` |
| CacheStore.Navigate | CacheAndBufferLayer.js:328-343 | The getSub loop yields the walk of the path (array and string indices and `length` included), null once a step is missing |
| Eviction.SortByTime | CacheAndBufferLayer.js:386-388 | The candidates are sorted by timestamp, and as a permutation of the list collected |
| Eviction.EvictionCount | CacheAndBufferLayer.js:393-398 | The delete loop stops when the candidates run out or the count reaches half the capacity, and not before |
| Eviction.Candidates | CacheAndBufferLayer.js:374-381 | Every candidate is a scanned, resident entry that is clean and not being written, with that entry's timestamp; there are no more candidates than scanned keys |
| Eviction.Collected | CacheAndBufferLayer.js:365-398 | gc changes nothing while under capacity or with caching off; every entry it keeps is unchanged, and the count never grows |
| Eviction.CollectedConsistent | CacheAndBufferLayer.js:393-398 | gc keeps the bookkeeping consistent; `bufferLength` drops by the number of entries deleted |
| Eviction.CollectedKeepsBusyEntries | CacheAndBufferLayer.js:374-381 | gc deletes only entries that are clean and not being written; everything it keeps is unchanged |
| Eviction.CollectedOldestFirst | CacheAndBufferLayer.js:383-398 | Every entry gc deletes is no newer than any evictable entry it keeps |
| Eviction.VictimOlderThanSurvivor | CacheAndBufferLayer.js:383-398 | The same, for one deleted and one kept entry |
| Eviction.CollectedStops | CacheAndBufferLayer.js:393 | After gc, the count is at most half the capacity, or no evictable entry is left |
| Eviction.CollectedNoExtra | CacheAndBufferLayer.js:393 | gc deletes nothing once the count has reached half the capacity |
| Flushing.OpOf | CacheAndBufferLayer.js:425-436 | A null value becomes a remove, anything else a set; the value is serialised when json is on and cloned otherwise |
| Flushing.DirtyKeys | CacheAndBufferLayer.js:420-422 | The scan visits exactly the dirty entries, each once |
| Flushing.Batch | CacheAndBufferLayer.js:420-436 | Every operation of the bulk is the operation of a dirty entry, built from its value |
| Flushing.PendingOfClean | CacheAndBufferLayer.js:439-446 | `Pending`, the write callbacks of the dirty entries in scan order, is empty for a buffer without dirty entries |
| Flushing.MarkInFlight | CacheAndBufferLayer.js:420-448 | After the scan no entry is dirty; each entry that was is in flight with its value and no callbacks; every other entry is untouched |
| Flushing.Released | CacheAndBufferLayer.js:467-470 | The flushed keys are no longer being written; nothing else about any entry changes |
| Flushing.BatchKeys | CacheAndBufferLayer.js:420-436 | The bulk holds one operation per dirty key, in scan order, with no key twice |
| Flushing.PendingAfterMark | CacheAndBufferLayer.js:439-446 | After the scan no entry holds a write callback: each was moved into the flush |
| Flushing.MarkInFlightClean | CacheAndBufferLayer.js:420-448 | A scan of a buffer with no dirty entry changes nothing |
| Flushing.PendingAfterRelease | CacheAndBufferLayer.js:467-470 | Clearing `writingInProgress` neither adds nor drops a callback |
| Flushing.PendingWithout | CacheAndBufferLayer.js:393-398 | Deleting clean entries neither adds nor drops a callback |
| Flushing.FirstThrow | CacheAndBufferLayer.js:461-464 | The first callback that throws is the first default callback given an error; without an error none throws |
| Flushing.CallAll | CacheAndBufferLayer.js:461-464 | Each collected callback is called once, in order, with the bulk's error |
| Buffering.IsHit | CacheAndBufferLayer.js:139-151 | A read is answered from the buffer only for a resident key, never with a negative cache, and always for a dirty entry |
| Buffering.AfterFetch | CacheAndBufferLayer.js:173-180 | With caching off a miss only counts; with caching on the fetched value is cached, clean and stamped now, unless gc evicts it; no other entry changes except by eviction |
| Buffering.BufferedWrite | CacheAndBufferLayer.js:195-228 | The written key holds the value, dirty, stamped now, with the write callback last; the count grows by at most one |
| Buffering.WriteThenRead | CacheAndBufferLayer.js:195-231 | After a buffered write the key reads from the buffer: its value, dirty, stamped now, with the callback added after those already pending |
| Buffering.BufferedWritePending | CacheAndBufferLayer.js:212-228 | A buffered write adds exactly its own callback to the callbacks awaiting a flush; gc loses none |
| Buffering.BufferedWriteOthers | CacheAndBufferLayer.js:195-213 | A buffered write changes no other key except by eviction |
| Buffering.BufferedWriteKeepsBusy | CacheAndBufferLayer.js:195-213 | A buffered write never evicts a dirty or in-flight entry |
| Buffering.PendingAfterGc | CacheAndBufferLayer.js:365-398 | gc neither adds nor drops a pending callback |
| Buffering.TouchedKeeps | CacheAndBufferLayer.js:139-151 | A read hit only restamps the entry it read |
| Buffering.AfterFetchKeeps | CacheAndBufferLayer.js:173-180 | Caching a fetched value keeps the bookkeeping and the pending callbacks |
| Buffering.AfterFetchOthers | CacheAndBufferLayer.js:173-180 | Caching a fetched value changes no other key except by evicting idle entries |
| Buffering.InFlightReadMisses | CacheAndBufferLayer.js:146 | With caching off, a key whose write is in flight is read from the driver |
| Buffering.InFlightReadHits | CacheAndBufferLayer.js:139 | With caching on, a key whose write is in flight is read from the buffer with the value being written |
| CacheStore.GetAnswer | CacheAndBufferLayer.js:136-186 | A hit answers the buffered value without an error; a miss answers the driver's error with the decoded value, or a parse error with no value |
| CacheStore.AfterGet | CacheAndBufferLayer.js:136-186 | A hit keeps the keys, the scan order and the count; a failed parse changes nothing; no other entry changes except by eviction; the count grows by at most one |
| CacheStore.DirectWrite | CacheAndBufferLayer.js:245-258 | A direct write of null is a remove, any other value a set, serialised when json is on |
| CacheStore.CollectedKeeps | CacheAndBufferLayer.js:365-398 | gc keeps the store invariant |
| CacheStore.AfterGetKeepsInvariant | CacheAndBufferLayer.js:136-186 | A read keeps the store invariant |
| CacheStore.BufferedWriteKeepsInvariant | CacheAndBufferLayer.js:195-231 | A buffered write keeps the store invariant |
| CacheStore.ScanKeepsInvariant | CacheAndBufferLayer.js:416-456 | The flush scan keeps the invariant with the bulk in flight; an empty scan changes nothing |
| CacheStore.ReleaseKeepsInvariant | CacheAndBufferLayer.js:466-470 | Releasing the flushed keys leaves the store idle and consistent |
| CacheStore.ReadYourWrite | CacheAndBufferLayer.js:136-231 | A get after a buffered set answers the value set, without an error |
| CacheStore.SetSubThenGetSub | CacheAndBufferLayer.js:265-345 | A getSub after a buffered setSub at the same path answers the value set |
| CacheStore.SetSubKeepsSiblings | CacheAndBufferLayer.js:265-345 | A getSub at a path that diverges from the setSub path at a step other than `length` answers what it answered before |
| CacheStore.FailedBulkIsNotRetried | CacheAndBufferLayer.js:458-470 | After a flush completes, even with an error, its entries are clean, idle and without callbacks, so no later flush resends them |
| CacheStore.Store.constructor | CacheAndBufferLayer.js:46-102 | The settings are the merge of the defaults, the driver's and the caller's; the buffer is empty and nothing is flushing |
| CacheStore.Store.CollectCandidates | CacheAndBufferLayer.js:374-381 | The loop collects the clean, idle entries with their timestamps, in scan order |
| CacheStore.Store.Gc | CacheAndBufferLayer.js:365-400 | gc leaves the table its specification gives: nothing while under capacity or with caching off, otherwise the oldest candidates deleted |
| CacheStore.Store.Sweep | CacheAndBufferLayer.js:374-398 | The busy part of gc: collect, sort and delete |
| CacheStore.Store.DeleteOldest | CacheAndBufferLayer.js:390-398 | The delete loop removes the first candidates from the buffer and the order, and counts them off |
| CacheStore.Store.Get | CacheAndBufferLayer.js:136-186 | The answer comes from the buffer on a hit and from the driver's reply otherwise; the table becomes the read's specified successor; the invariant holds |
| CacheStore.Store.Touch | CacheAndBufferLayer.js:142 | A hit restamps the entry |
| CacheStore.Store.CacheFetched | CacheAndBufferLayer.js:173-180 | A fetched value is cached when caching is on, counted, and gc runs |
| CacheStore.Store.Set | CacheAndBufferLayer.js:192-260 | With a write interval the value is buffered and the buffer callback is called at once; without one, the store hands the driver a direct set or remove and changes nothing |
| CacheStore.Store.BufferWrite | CacheAndBufferLayer.js:199-228 | The buffered branch leaves the table of the buffered-write specification |
| CacheStore.Store.StoreEntry | CacheAndBufferLayer.js:199-210 | The entry is created if missing and counted, then set dirty with the value and time |
| CacheStore.Store.AppendCallback | CacheAndBufferLayer.js:217-228 | The write callback, or the default rethrowing one, is added to the entry |
| CacheStore.Store.DirectDone | CacheAndBufferLayer.js:239-243 | A direct write's answer goes to the buffer callback, then to the write callback |
| CacheStore.Store.Remove | CacheAndBufferLayer.js:354-360 | A remove is a set of null |
| CacheStore.Store.GetSub | CacheAndBufferLayer.js:313-348 | The answer is the read's error, or the walk of its value along the path, with numeric names indexing arrays and strings |
| CacheStore.Store.SetSub | CacheAndBufferLayer.js:265-307 | The read is followed by a set of the document with the value placed along the path; a failed read, a walk that throws or a path the model does not cover writes nothing |
| CacheStore.Store.FlushScan | CacheAndBufferLayer.js:407-487 | While a flush is in flight it only calls back; otherwise the bulk is the dirty entries in scan order, their callbacks move into the flight, and an empty bulk fires the pending shutdown callback |
| CacheStore.Store.StartFlush | CacheAndBufferLayer.js:416-486 | The scan, the flushing flag and the shutdown branch of a flush that is not blocked |
| CacheStore.Store.MarkDirty | CacheAndBufferLayer.js:420-448 | The scan loop builds the bulk and collects the callbacks, and marks each dirty entry clean and in flight |
| CacheStore.Store.ScanKey | CacheAndBufferLayer.js:422-447 | One key of the scan loop |
| CacheStore.Store.FlushComplete | CacheAndBufferLayer.js:458-479 | Every collected callback is called in order with the bulk's error until one throws; if none throws, the keys are released, the flush's callback is called, gc runs and the flag is cleared |
| CacheStore.Store.Settle | CacheAndBufferLayer.js:466-478 | The rest of the completion after the callbacks: release, call back, gc, clear the flag |
| CacheStore.Store.CallCollected | CacheAndBufferLayer.js:461-464 | The callback loop stops at the first callback that throws |
| CacheStore.Store.ReleaseKeys | CacheAndBufferLayer.js:467-470 | The flushed keys lose their `writingInProgress` flag |
| CacheStore.Store.DoShutdown | CacheAndBufferLayer.js:123-131 | With a write interval the callback waits for the next empty flush; without one it is called at once |
| Escaping.Us | couch.js:10 | The run of `u`s has the length asked for |
| Escaping.LeadingUs | couch.js:9-12 | The count of leading `u`s, stopping at the first other character |
| Escaping.Escaped | couch.js:8-15 | The stored name is the key or the key with one more `u`, and never starts with `_` |
| Escaping.Unescaped | couch.js:8-16 | Recovering a key strips at most one `u`, and only from a name that still has the escaped form without it |
| Escaping.EscapeKey | couch.js:8-15 | The scan loop escapes exactly as specified |
| Escaping.UnescapeEscaped | couch.js:8-16 | Escaping is undone by dropping the added `u`: it loses nothing |
| Escaping.EscapeInjective | couch.js:8-16 | Distinct keys get distinct names |
| Escaping.AddressInjective | dav.js:11-20 | Under one address prefix, distinct keys get distinct addresses |
| Escaping.EscapedNoLeadingUnderscore | couch.js:13-15 | No stored name starts with `_` |
| Escaping.EscapedForm | couch.js:10-15 | A key of `n` `u`s, `_` and a rest is stored with one more `u` in front |
| Escaping.EscapedOnlyForm | couch.js:13-15 | Any key the escaping changes has that form |
| CouchClient.PutDocument | couch.js:70-75 | The PUT body holds the value, and `_rev` exactly when the recorded revision is truthy |
| CouchClient.NextPutNamesReportedRevision | couch.js:69-80 | The revision a PUT response reports is the one the next PUT of the key names |
| CouchClient.PutResponseKeepsOtherKeys | couch.js:76-80 | A response for one key leaves every other key's revision alone |
| CouchClient.PutResponseWithoutRev | couch.js:78 | A response without a truthy `rev` changes no revision |
| CouchClient.ResponseCallsAsWritten | couch.js:23-35 | As written, the first callback call is null for every method, and a 404 gets two calls, a body one more than its chunks |
| CouchClient.GetAnsweredTwice | couch.js:23-35 | As written, a GET that finds nothing is answered twice, and a GET that finds a document is answered null first |
| CouchClient.ResponseCalls | couch.js:23-35 | With the intended comparison, a request other than PUT is answered once on 404 and once per chunk otherwise |
| CouchClient.OnlyPutGetsTheExtraAnswer | couch.js:33-35 | Only a PUT gets the extra null answer, and for a PUT nothing changes |
| CouchClient.Couch.KeyToAddress | couch.js:8-17 | The address is the backend address followed by the escaped key, from which the key is recovered |
| CouchClient.Couch.PutBody | couch.js:69-75 | The body names the key's shadow revision exactly when it is truthy |
| CouchClient.Couch.PutAnswered | couch.js:76-82 | A parsed response with a truthy `rev` updates the key's shadow revision; a failed parse or a null response stops the handler before the callback |
| CouchClient.Couch.GetAnswered | couch.js:60-64 | A parsed document records its `_rev` whatever it is, and its `value` is the answer |
| DavClient.TransportFor | dav.js:28 | `https` is used exactly for the protocol `https:` |
| DavClient.Dav.KeyToAddress | dav.js:11-20 | The address is the storage address followed by the escaped key, from which the key is recovered |
| DavClient.Dav.Prepare | dav.js:22-28 | Address, method, bearer token, `Content-Length` exactly for a truthy value, `withCredentials`, and the transport |
| DavClient.LengthOf | dav.js:26 | `value.length`: a string's length in UTF-16 code units (its character count when every character is below U+10000), an array's element count, an object's `length` property |
| Values.Utf16Length | dav.js:26 | A string's UTF-16 length lies between its character count and twice that, and equals the character count when no character is above U+FFFF |
| DavClient.Dav.Get | dav.js:63-65 | A GET of the key's address with no length |
| DavClient.Dav.Set | dav.js:67-69 | A PUT of the key's address, with a length exactly when the value is truthy |
| DavClient.Dav.Remove | dav.js:71-73 | A DELETE of the key's address with no length |
| DavClient.DistinctKeysDistinctRequests | dav.js:11-20 | Requests for distinct keys go to distinct addresses |
| StubBackend.ApplyAll | testStub_backend.js:37-57 | A key appears only through a set in the bulk and disappears only through a remove in the bulk |
| StubBackend.ApplyAllLastWrite | testStub_backend.js:37-57 | After a bulk, each key holds the value of its last set, is absent after a last remove, and is unchanged if not written |
| StubBackend.ApplyAllUntouched | testStub_backend.js:37-57 | A key no operation names keeps its value |
| StubBackend.Stub.constructor | testStub_backend.js:3-8 | The constructor forces json on and leaves the other settings alone |
| StubBackend.Stub.Init | testStub_backend.js:10-18 | The store is emptied, and the answer is invalid exactly when the settings say so and `(null, this)` otherwise |
| StubBackend.Stub.Get | testStub_backend.js:20-24 | The stored value, with the error flag set for a missing key or a falsy value |
| StubBackend.Stub.Set | testStub_backend.js:26-30 | The key now holds the value, and the callback is called without an error |
| StubBackend.Stub.Remove | testStub_backend.js:32-35 | The key alone is deleted, and the callback is never called |
| StubBackend.Stub.DoBulk | testStub_backend.js:37-58 | The store is the bulk applied in order; the bulk's callback is called exactly when no remove is in the bulk |
| CouchDBBackend.Revisions | CouchDB_backend.js:130-137 | Revisions are recorded only for keys of rows whose value is not null |
| CouchDBBackend.RevisionsRecorded | CouchDB_backend.js:130-137 | A revision is recorded exactly for the keys of rows with a non-null value, and it is such a row's `rev` |
| CouchDBBackend.SetterOf | CouchDB_backend.js:145-160 | A write's document has the key, the recorded non-null revision, and the value for a set or the deletion mark for a remove |
| CouchDBBackend.OperationsOf | CouchDB_backend.js:143-161 | One operation per document, in order |
| CouchDBBackend.Setters | CouchDB_backend.js:143-161 | No more documents than operations; each document carries a value or the deletion mark, never both; a named revision is the recorded one |
| CouchDBBackend.SettersDescribeBulk | CouchDB_backend.js:143-161 | The documents of a bulk of writes describe exactly that bulk, in order |
| CouchDBBackend.BatchDocuments | CouchDB_backend.js:143-161 | The documents of a flushed bulk describe exactly that bulk |
| CouchDBBackend.Remote.constructor | CouchDB_backend.js:21-33 | The driver forces cache 100, writeInterval 500 and json off |
| CouchDBBackend.Remote.Get | CouchDB_backend.js:53-66 | The document's `value`, null without a document, never an error |
| CouchDBBackend.Remote.Set | CouchDB_backend.js:68-82 | The saved document is the key and value, naming the read revision exactly when a document exists |
| CouchDBBackend.Remote.Remove | CouchDB_backend.js:84-101 | Without a document the callback is called at once; otherwise the read revision is deleted; never an error |
| CouchDBBackend.Remote.CollectKeys | CouchDB_backend.js:106-112 | The queried keys are the bulk's keys in order |
| CouchDBBackend.Remote.CollectRevisions | CouchDB_backend.js:129-137 | The loop fills the revision map as specified |
| CouchDBBackend.Remote.CollectSetters | CouchDB_backend.js:143-161 | The loop builds one document per write in bulk order |
| CouchDBBackend.Remote.DoBulk | CouchDB_backend.js:103-179 | A failed revision query throws; otherwise the documents sent are those of the bulk and the callback gets the bulk request's error |
| Front.BackendType | CloneAndAtomicLayer.js:28-31 | A missing or empty type, or `"undefined"`, becomes `"couch"`; any other is kept |
| Front.Forwarded | CloneAndAtomicLayer.js:83-146 | Each known record carrying a store becomes the store call of its type on its key, with the write callback passed through; an unknown type, or a record emitted before `init`, calls nothing |
| Front.Dispatch | CloneAndAtomicLayer.js:83-146 | A read answers the caller with a clone and then releases the channel; a write releases the channel and then acknowledges the buffer callback; a read whose value cannot be cloned does neither |
| Front.EnqueuedValueIsCopy | CloneAndAtomicLayer.js:65 | The value a set enqueues is plain data equal to the caller's own properties, and cloning it again changes nothing |
| Front.Remote.constructor | CloneAndAtomicLayer.js:26-40 | The type is settled, the driver chosen, both settings kept as given |
| Front.Remote.Init | CloneAndAtomicLayer.js:42-47 | The driver is built on the backend settings, and the store's settings are the merge of the driver's forced settings and the wrapper settings; the stub answers invalid exactly when asked to, and the CouchDB driver calls back with no arguments |
| Front.Remote.Get | CloneAndAtomicLayer.js:58-61 | A get record goes to the key's channel |
| Front.Remote.Set | CloneAndAtomicLayer.js:63-66 | A set record with a clone of the value goes to the key's channel; an uncloneable value throws first |
| Front.Remote.GetSub | CloneAndAtomicLayer.js:68-71 | A getsub record goes to the key's channel |
| Front.Remote.SetSub | CloneAndAtomicLayer.js:73-76 | A setsub record with a clone of the value goes to the key's channel; an uncloneable value throws first |
| Front.Remote.Remove | CloneAndAtomicLayer.js:78-81 | A remove record goes to the key's channel |

## Left out

- The timer: `setInterval(flush, writeInterval)` (CacheAndBufferLayer.js:95-98). `FlushScan` is the method a tick would call.
- Wall-clock time: `new Date().getTime()` is the parameter `now`.
- Logging: every `logger` and `console` call.
- The `channels` queue. The front records what it emits per key. The first-in, first-out running of one key's records is the library's behaviour and is not part of this model.
- StubBackend.Stub.DoBulk: `forEachLimit(bulk, 8, …)` in testStub_backend.js:57 stops starting items after 8 removes have stalled. The model applies every item. The `async` library's `waterfall` and `series` are modelled by their effect.
- JSON text. Serialised values are the payload `Text(doc)`, and `JSON.parse` of the driver's reply is the reply's `parsed` outcome.
- HTTP. The requests `couch.js` and `dav.js` would send are modelled; sending them, `url.parse` (its protocol is a parameter), `req.write` and the error handler are not.
- The `felix-couchdb` client: `init` (CouchDB_backend.js:35-51, including its "Basic" authorisation header) and `close` are not part of this model. The answers of `getDoc`, `_all_docs` and `bulkDocs` are parameters.
- `close` on every layer: it only forwards to the driver.
- Driver types other than `testStub` and `CouchDB`: `couch_backend`, `WebDAV_backend.js` and `simple_backend.js` are not part of this model.
- Front.Remote.Init requires a covered driver type, because the other types load modules that are not part of this model.
- Paths.Lookup: a string's characters are indexed as Unicode scalar values, not UTF-16 code units, and members every value inherits from its built-in prototype (`push`, `toString`, a method on a number) read as missing.
- Paths.Assign: assigning `length` or a non-index name on an array, or an index past its end, is `Unmodelled`, as is any assignment to a primitive.
- CacheStore.Store.SetSub: an own property holding `undefined` is treated as null, so the walk throws at it where the source replaces it with `{}`; a step into an inherited object is `Unmodelled`.
- Paths.SetKeepsSiblings and CacheStore.SetSubKeepsSiblings say nothing of a path that leaves the written one at `length`, which an append changes.
- Aliasing: values are immutable in the model. The source's `setSub` mutates the object it read, which may be the buffered value itself.
- The `Date` branch of `clone`: dates are not among the modelled values.
- Floating point: numbers are modelled as integers.
- `for…in` order: the buffer's scan order is insertion order. JavaScript puts integer-like keys first.
- Keys inherited from `Object.prototype`, such as `constructor`. The `{}` maps of the stub and of `doBulk`'s revisions would see them, and so would the store's buffer (CacheAndBufferLayer.js:89). The model's maps hold only the keys put in them.
- Buffering.IsHit and CacheStore.Store.Get: with a nonzero cache, `get("constructor")` finds the inherited function at CacheAndBufferLayer.js:139 and answers its `value` property from the cache, undefined until a set of that key. The model finds no entry and fetches.
- CacheStore.Store.Set: for such a key the test `!this.buffer[key]` at CacheAndBufferLayer.js:200 fails, so the write lands on the inherited object and `bufferLength` does not grow. The `for…in` at CacheAndBufferLayer.js:420 never visits it, so it is never flushed and its write callback never runs. The model buffers and flushes it like any other key.
- Values.Clone: an own `__proto__` property is copied as an own property. In the source `copy["__proto__"] = …` gives the copy a new prototype instead, so the copy inherits the cloned value's properties and does not own `__proto__`.
- CacheStore.Store.FlushScan requires every dirty value to be serialisable or clonable. A `clone` that throws inside the timer is not modelled.
- StubBackend.Stub.Get, Set, Remove and DoBulk require that `init` has run, since before it `this.backend` is null and the source throws.
- CacheStore.Store.SetSub: the final handler of the waterfall (CacheAndBufferLayer.js:302-306) names an undefined `callback`, so an error there is a ReferenceError. The model reports the failed read without that handler.
- CouchDBBackend.Remote.DoBulk: the `throw` at CouchDB_backend.js:167 names an undefined `er`. Neither step reports an error, so it is unreachable and not modelled.
- CouchClient.Couch.GetAnswered: `couch.get` (couch.js:60), `couch.set` (couch.js:76) and `couch.remove` (couch.js:87) pass their handler where `doCall` expects `deadLine`, so `callback` inside `doCall` is undefined for every caller in couch.js, and its first call throws a TypeError. The handlers are modelled as the code evidently means them to run.
- A flush's own callback is never given by the timer. The model keeps it as a parameter.

## Findings

| source | as written | input that shows it | evidently intended | confidence | as-written member | corrected member |
|---|---|---|---|---|---|---|
| couch.js:33 | `if(method='PUT')` assigns, so every response answers `(false, null)` once more | A GET that gets a 404 is answered twice; a GET that finds a document is answered null before its body. Only a caller that passes `doCall` all five arguments sees this: `get`, `set` and `remove` in couch.js pass four | `method == 'PUT'`: only a PUT gets the extra null answer | not executed | CouchClient.ResponseCallsAsWritten | CouchClient.ResponseCalls |
