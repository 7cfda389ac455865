/** The embedding job worker (apps/worker/main.py).

    Records of the embeddings collection are both data and job queue: their
    `status` moves from "pending" to "processing" when a worker claims them,
    then to "completed" (with the vector) or "failed" (with an error text).
    The collection is an object whose failures are fixed by an oracle given
    at construction: its n-th operation raises `faultAt(n)` when that is
    an exception. The clock and the embeddings provider are parameters:
    the readings of `utc_now()` and the provider's reply are passed in. */
module EmbeddingWorker {
  import opened Wrappers
  import opened Text
  import opened Environ

  /** A stored value as the worker sees it. */
  datatype Value =
    | Null
    | Bool(b: bool)
    | Num(n: int)
    | Str(s: string)
    | Time(instant: int)
    | Floats(xs: seq<real>)
    | List(items: seq<Value>)
    | Dict(fields: map<string, Value>)

  /** One stored document: its top-level fields. */
  type Record = map<string, Value>

  /** A raised exception: its class name and its message. */
  datatype Exc = Exc(typeName: string, message: string)

  /** The error text of a failed job: the exception's class name, ": ", its message. */
  function Describe(e: Exc): string {
    e.typeName + ": " + e.message
  }

  // ---------------------------------------------------------------------
  // The job collection

  predicate HasStatus(r: Record, status: string) {
    "status" in r && r["status"] == Str(status)
  }

  /** The ids of the records whose status is `status`. */
  function WithStatus(records: map<string, Record>, status: string): set<string> {
    set k | k in records && HasStatus(records[k], status)
  }

  function Pending(records: map<string, Record>): set<string> {
    WithStatus(records, "pending")
  }

  /** Every record is stored under its own `_id`. */
  predicate WellKeyed(records: map<string, Record>) {
    forall k :: k in records ==> KeyedBy(records[k], k)
  }

  /** The record's `_id` is the string `k`. */
  predicate KeyedBy(r: Record, k: string) {
    "_id" in r && r["_id"] == Str(k)
  }

  /** The effect of a successful `update_one({"_id": id}, {"$set": fields})`:
      the record whose `_id` equals `id` gets `fields` merged in; when no
      record has that id, nothing changes. */
  function SetById(records: map<string, Record>, id: Value, fields: Record): map<string, Record> {
    if id.Str? && id.s in records then records[id.s := records[id.s] + fields] else records
  }

  /** A store write that is carried out unless the store raised. */
  function WriteUnlessFault(records: map<string, Record>, fault: Option<Exc>, id: Value, fields: Record): map<string, Record> {
    if fault.Some? then records else SetById(records, id, fields)
  }

  class Collection {
    var records: map<string, Record>
    /** Number of operations issued so far. */
    var ops: nat
    /** `faultAt(n)` is the error the n-th operation raises, if any. */
    const faultAt: nat -> Option<Exc>

    predicate Valid()
      reads this
    {
      WellKeyed(records)
    }

    constructor (records: map<string, Record>, faultAt: nat -> Option<Exc>)
      requires WellKeyed(records)
      ensures Valid()
      ensures this.records == records && this.faultAt == faultAt && ops == 0
    {
      this.records := records;
      this.faultAt := faultAt;
      ops := 0;
    }

    /** `find_one_and_update({"status": status}, {"$set": fields},
        return_document=AFTER)`: atomically picks some record with that
        status, merges `fields` into it and returns the updated record. */
    method FindOneAndUpdate(status: string, fields: Record) returns (res: Result<Option<Record>, Exc>)
      requires Valid() && "_id" !in fields
      modifies this
      ensures Valid() && ops == old(ops) + 1
      ensures faultAt(old(ops)).Some? ==> res == Err(faultAt(old(ops)).value) && records == old(records)
      ensures faultAt(old(ops)).None? && WithStatus(old(records), status) == {} ==>
                res == Ok(None) && records == old(records)
      ensures faultAt(old(ops)).None? && WithStatus(old(records), status) != {} ==>
                res.Ok? && res.value.Some? && IdOf(res.value.value).Str?
                && var k := IdOf(res.value.value).s;
                   k in WithStatus(old(records), status)
                   && records == old(records)[k := old(records)[k] + fields]
                   && res.value.value == records[k]
    {
      var fault := faultAt(ops);
      ops := ops + 1;
      if fault.Some? {
        return Err(fault.value);
      }
      if WithStatus(records, status) == {} {
        return Ok(None);
      }
      var k :| k in WithStatus(records, status);
      assert (records[k] + fields)["_id"] == records[k]["_id"];
      records := records[k := records[k] + fields];
      res := Ok(Some(records[k]));
    }

    /** `update_one({"_id": id}, {"$set": fields})`; returns the error it raised. */
    method UpdateOne(id: Value, fields: Record) returns (err: Option<Exc>)
      requires Valid() && "_id" !in fields
      modifies this
      ensures Valid() && ops == old(ops) + 1
      ensures err == faultAt(old(ops))
      ensures records == WriteUnlessFault(old(records), err, id, fields)
    {
      err := faultAt(ops);
      ops := ops + 1;
      if err.None? && id.Str? && id.s in records {
        assert (records[id.s] + fields)["_id"] == records[id.s]["_id"];
        records := records[id.s := records[id.s] + fields];
      }
    }
  }

  /** What `client.embeddings.create(...)` followed by `resp.data[0].embedding`
      yields: the vector, or the exception raised on the way. */
  datatype Reply = Embedding(vector: seq<real>) | Raised(e: Exc)

  // ---------------------------------------------------------------------
  // Claiming

  function ClaimFields(now: int): Record {
    map["status" := Str("processing"), "startedAt" := Time(now)]
  }

  /** Claiming a pending record takes exactly that record out of the pending set. */
  lemma ClaimLeavesPending(records: map<string, Record>, k: string, now: int)
    requires k in Pending(records)
    ensures Pending(records[k := records[k] + ClaimFields(now)]) == Pending(records) - {k}
  {
    var after := records[k := records[k] + ClaimFields(now)];
    assert !HasStatus(after[k], "pending");
    forall j | j in Pending(records) - {k} ensures j in Pending(after) {
      assert after[j] == records[j];
    }
  }

  /** `claim_pending`, with `now` the reading of `utc_now()` it takes: one
      atomic store operation that flips some pending record to "processing"
      with `startedAt` set, or None when nothing is pending or the store
      raised. No other record changes. */
  method ClaimPending(col: Collection, now: int) returns (doc: Option<Record>)
    requires col.Valid()
    modifies col
    ensures col.Valid() && col.ops == old(col.ops) + 1
    ensures doc.None? ==> col.records == old(col.records)
    ensures doc.None? ==> col.faultAt(old(col.ops)).Some? || Pending(old(col.records)) == {}
    ensures doc.Some? ==>
              IdOf(doc.value).Str?
              && var k := IdOf(doc.value).s;
                 k in Pending(old(col.records))
                 && col.records == old(col.records)[k := old(col.records)[k] + ClaimFields(now)]
                 && doc.value == col.records[k]
                 && HasStatus(doc.value, "processing")
                 && doc.value["startedAt"] == Time(now)
                 && Pending(col.records) == Pending(old(col.records)) - {k}
  {
    var res := col.FindOneAndUpdate("pending", ClaimFields(now));
    match res
    case Err(_) =>
      doc := None;
    case Ok(found) =>
      doc := found;
      if found.Some? {
        ghost var k := IdOf(found.value).s;
        ClaimLeavesPending(old(col.records), k, now);
      }
  }

  // ---------------------------------------------------------------------
  // Text extraction

  /** The value at a path of keys through nested dictionaries, or None as
      soon as a step meets a non-dictionary or a missing key. */
  function Lookup(v: Value, path: seq<string>): Option<Value>
    decreases |path|
  {
    if path == [] then Some(v)
    else if v.Dict? && path[0] in v.fields then Lookup(v.fields[path[0]], path[1..])
    else None
  }

  /** Whether the step from `at` along key `key` exists. */
  predicate StepPresent(at: Option<Value>, key: string) {
    at.Some? && at.value.Dict? && key in at.value.fields
  }

  /** Looking up `p + q` is looking up `p`, then `q` from there. */
  lemma {:induction false} LookupAppend(v: Value, p: seq<string>, q: seq<string>)
    ensures Lookup(v, p + q) == match Lookup(v, p) case None => None case Some(u) => Lookup(u, q)
    decreases |p|
  {
    if p != [] {
      assert (p + q)[0] == p[0];
      assert (p + q)[1..] == p[1..] + q;
      if v.Dict? && p[0] in v.fields {
        LookupAppend(v.fields[p[0]], p[1..], q);
      }
    } else {
      assert p + q == q;
    }
  }

  /** A path resolves exactly when every one of its steps is present in a
      nested dictionary. */
  lemma {:induction false} LookupPresent(v: Value, path: seq<string>)
    ensures Lookup(v, path).Some? <==>
              forall i :: 0 <= i < |path| ==> StepPresent(Lookup(v, path[..i]), path[i])
    decreases |path|
  {
    if path != [] {
      var n := |path| - 1;
      LookupPresent(v, path[..n]);
      assert path[..n] + [path[n]] == path;
      LookupAppend(v, path[..n], [path[n]]);
      forall i | 0 <= i < n ensures path[..n][..i] == path[..i] && path[..n][i] == path[i] { }
    }
  }

  /** `read_dotted`: walks the dot-separated segments of `dotted` from `obj`. */
  method ReadDotted(obj: Record, dotted: string) returns (r: Option<Value>)
    ensures r == Lookup(Dict(obj), Split(dotted, '.'))
  {
    var parts := Split(dotted, '.');
    var cur := Dict(obj);
    for i := 0 to |parts|
      invariant Lookup(Dict(obj), parts) == Lookup(cur, parts[i..])
    {
      assert parts[i..][0] == parts[i] && parts[i..][1..] == parts[i + 1..];
      if cur.Dict? && parts[i] in cur.fields {
        cur := cur.fields[parts[i]];
      } else {
        return None;
      }
    }
    assert parts[|parts|..] == [];
    return Some(cur);
  }

  const NoTextError: string := "No text available for embedding"
  const FallbackKeys: seq<string> := ["text", "content", "input"]

  /** `emb_doc.get(key)` */
  function Get(doc: Record, key: string): Option<Value> {
    if key in doc then Some(doc[key]) else None
  }

  /** A candidate is usable when it is a string that is not all whitespace
      (`isinstance(v, str) and v.strip()`). */
  predicate IsText(v: Option<Value>) {
    v.Some? && v.value.Str? && !PyBlank(v.value.s)
  }

  /** The first usable candidate among the top-level `keys`. */
  function FirstText(doc: Record, keys: seq<string>): (r: Option<string>)
    ensures r.Some? ==> !PyBlank(r.value)
    decreases |keys|
  {
    if keys == [] then None
    else if IsText(Get(doc, keys[0])) then Some(Get(doc, keys[0]).value.s)
    else FirstText(doc, keys[1..])
  }

  /** The value at the preferred dotted field when `EMBEDDING_TEXT_FIELD` is set. */
  function PreferredValue(doc: Record, preferred: Option<string>): Option<Value> {
    if Truthy(preferred) then Lookup(Dict(doc), Split(preferred.value, '.')) else None
  }

  /** The text a job is embedded from, or the error message when there is none. */
  function Extraction(doc: Record, preferred: Option<string>): Result<string, string> {
    var p := PreferredValue(doc, preferred);
    if IsText(p) then Ok(p.value.s)
    else match FirstText(doc, FallbackKeys)
      case Some(t) => Ok(t)
      case None => Err(NoTextError)
  }

  /** The first usable candidate is the earliest key holding a non-blank
      string, and there is none exactly when no key holds one. */
  lemma {:induction false} FirstTextEarliest(doc: Record, keys: seq<string>)
    ensures FirstText(doc, keys).None? <==> forall i :: 0 <= i < |keys| ==> !IsText(Get(doc, keys[i]))
    ensures forall i :: 0 <= i < |keys| && IsText(Get(doc, keys[i]))
              && (forall j :: 0 <= j < i ==> !IsText(Get(doc, keys[j])))
              ==> FirstText(doc, keys) == Some(doc[keys[i]].s)
    decreases |keys|
  {
    if keys != [] {
      FirstTextEarliest(doc, keys[1..]);
      assert forall i :: 0 <= i < |keys| - 1 ==> keys[1..][i] == keys[i + 1];
      forall i | 0 <= i < |keys| && IsText(Get(doc, keys[i])) && (forall j :: 0 <= j < i ==> !IsText(Get(doc, keys[j])))
        ensures FirstText(doc, keys) == Some(doc[keys[i]].s)
      {
        if i > 0 {
          assert !IsText(Get(doc, keys[0]));
          assert keys[1..][i - 1] == keys[i];
        }
      }
      if FirstText(doc, keys).None? {
        forall i | 0 <= i < |keys| ensures !IsText(Get(doc, keys[i])) {
          if i > 0 { assert keys[1..][i - 1] == keys[i]; }
        }
      }
    }
  }

  /** The preferred field wins when it holds a non-blank string; otherwise the
      first non-blank string among `text`, `content`, `input` is returned
      unchanged. */
  lemma ExtractionOrder(doc: Record, preferred: Option<string>)
    ensures IsText(PreferredValue(doc, preferred)) ==>
              Extraction(doc, preferred) == Ok(PreferredValue(doc, preferred).value.s)
    ensures forall i :: 0 <= i < |FallbackKeys| && !IsText(PreferredValue(doc, preferred))
              && IsText(Get(doc, FallbackKeys[i])) && (forall j :: 0 <= j < i ==> !IsText(Get(doc, FallbackKeys[j])))
              ==> Extraction(doc, preferred) == Ok(doc[FallbackKeys[i]].s)
  {
    FirstTextEarliest(doc, FallbackKeys);
  }

  /** Extraction fails, with the fixed message, exactly when neither the
      preferred field nor any fallback key holds a non-blank string; text it
      returns is never blank. */
  lemma ExtractionFailure(doc: Record, preferred: Option<string>)
    ensures Extraction(doc, preferred).Err? <==>
              !IsText(PreferredValue(doc, preferred)) && forall i :: 0 <= i < |FallbackKeys| ==> !IsText(Get(doc, FallbackKeys[i]))
    ensures Extraction(doc, preferred).Err? ==> Extraction(doc, preferred).error == NoTextError
    ensures Extraction(doc, preferred).Ok? ==> !PyBlank(Extraction(doc, preferred).value)
  {
    FirstTextEarliest(doc, FallbackKeys);
    if !IsText(PreferredValue(doc, preferred)) {
      assert Extraction(doc, preferred).Ok? ==> Extraction(doc, preferred) == Ok(FirstText(doc, FallbackKeys).value);
    }
  }

  /** `extract_text_for_embedding` with `EMBEDDING_TEXT_FIELD` passed in as `preferred`. */
  method ExtractTextForEmbedding(doc: Record, preferred: Option<string>) returns (r: Result<string, string>)
    ensures r == Extraction(doc, preferred)
  {
    if Truthy(preferred) {
      var v := ReadDotted(doc, preferred.value);
      if v.Some? && v.value.Str? {
        PyStripEmpty(v.value.s);
      }
      if v.Some? && v.value.Str? && PyStrip(v.value.s) != "" {
        return Ok(v.value.s);
      }
    }
    for i := 0 to |FallbackKeys|
      invariant FirstText(doc, FallbackKeys) == FirstText(doc, FallbackKeys[i..])
    {
      var v := Get(doc, FallbackKeys[i]);
      if v.Some? && v.value.Str? {
        PyStripEmpty(v.value.s);
      }
      if v.Some? && v.value.Str? && PyStrip(v.value.s) != "" {
        return Ok(v.value.s);
      }
      assert FallbackKeys[i..][1..] == FallbackKeys[i + 1..];
    }
    return Err(NoTextError);
  }

  // ---------------------------------------------------------------------
  // Processing one job

  function FailedFields(error: string, now: int): Record {
    map["status" := Str("failed"), "error" := Str(error), "failedAt" := Time(now)]
  }

  function CompletedFields(vector: seq<real>, now: int): Record {
    map["status" := Str("completed"), "embedding" := Floats(vector), "completedAt" := Time(now)]
  }

  /** `emb_doc.get("_id")` */
  function IdOf(doc: Record): Value {
    if "_id" in doc then doc["_id"] else Null
  }

  /** A write of terminal fields never adds a pending record. */
  lemma SetByIdKeepsPending(records: map<string, Record>, id: Value, fields: Record)
    requires "status" in fields && fields["status"] != Str("pending")
    ensures Pending(SetById(records, id, fields)) <= Pending(records)
  {
    if id.Str? && id.s in records {
      var after := SetById(records, id, fields);
      forall j | j in Pending(after) ensures j in Pending(records) {
        assert j != id.s;
        assert after[j] == records[j];
      }
    }
  }

  /** The failure branch of `process_embedding`: marks the job "failed" with
      the error text and `failedAt` = `now`; an error raised by this write is
      swallowed. */
  method MarkFailed(col: Collection, id: Value, error: string, now: int)
    requires col.Valid()
    modifies col
    ensures col.Valid() && col.ops == old(col.ops) + 1
    ensures col.records == WriteUnlessFault(old(col.records), col.faultAt(old(col.ops)), id, FailedFields(error, now))
  {
    var _ := col.UpdateOne(id, FailedFields(error, now));
  }

  /** The records after the provider branch of `process_embedding`, given the
      provider's reply, the errors `f0` and `f1` the first and second store
      writes raise, and the clock readings `t0` and `t1` taken for them. */
  function EmbedWrites(records: map<string, Record>, id: Value, reply: Reply,
                       f0: Option<Exc>, f1: Option<Exc>, t0: int, t1: int): map<string, Record>
  {
    match reply
    case Raised(e) => WriteUnlessFault(records, f0, id, FailedFields(Describe(e), t0))
    case Embedding(v) =>
      if f0.None? then SetById(records, id, CompletedFields(v, t0))
      else WriteUnlessFault(records, f1, id, FailedFields(Describe(f0.value), t1))
  }

  /** The provider branch touches only the job's own record. A provider
      success is stored as "completed" with the vector and `completedAt`; a
      provider failure is stored as "failed" with "<ExceptionType>: <message>"
      and `failedAt`, and so is a store failure on the "completed" write. */
  lemma EmbedWritesOutcome(records: map<string, Record>, k: string, reply: Reply,
                           f0: Option<Exc>, f1: Option<Exc>, t0: int, t1: int)
    requires k in records
    ensures var after := EmbedWrites(records, Str(k), reply, f0, f1, t0, t1);
            after.Keys == records.Keys
            && (forall j :: j in records && j != k ==> after[j] == records[j])
            && (reply.Embedding? && f0.None? ==>
                  HasStatus(after[k], "completed") && after[k]["embedding"] == Floats(reply.vector)
                  && after[k]["completedAt"] == Time(t0))
            && (reply.Raised? && f0.None? ==>
                  HasStatus(after[k], "failed") && after[k]["error"] == Str(Describe(reply.e))
                  && after[k]["failedAt"] == Time(t0))
            && (reply.Embedding? && f0.Some? && f1.None? ==>
                  HasStatus(after[k], "failed") && after[k]["error"] == Str(Describe(f0.value))
                  && after[k]["failedAt"] == Time(t1))
            && (reply.Raised? && f0.Some? ==> after == records)
  {
  }

  /** Neither branch of `process_embedding` makes any record pending. */
  lemma EmbedWritesKeepPending(records: map<string, Record>, id: Value, reply: Reply,
                               f0: Option<Exc>, f1: Option<Exc>, t0: int, t1: int)
    ensures Pending(EmbedWrites(records, id, reply, f0, f1, t0, t1)) <= Pending(records)
  {
    match reply
    case Raised(e) =>
      SetByIdKeepsPending(records, id, FailedFields(Describe(e), t0));
    case Embedding(v) =>
      SetByIdKeepsPending(records, id, CompletedFields(v, t0));
      if f0.Some? {
        SetByIdKeepsPending(records, id, FailedFields(Describe(f0.value), t1));
      }
  }

  /** The records after `process_embedding` given the outcome of text
      extraction: its error is stored as "failed", and its text goes to the
      provider branch. */
  function ProcessWrites(records: map<string, Record>, id: Value, text: Result<string, string>, reply: Reply,
                         f0: Option<Exc>, f1: Option<Exc>, t0: int, t1: int): map<string, Record>
  {
    match text
    case Err(message) => WriteUnlessFault(records, f0, id, FailedFields(message, t0))
    case Ok(_) => EmbedWrites(records, id, reply, f0, f1, t0, t1)
  }

  /** No outcome of `process_embedding` makes any record pending. */
  lemma ProcessWritesKeepPending(records: map<string, Record>, id: Value, text: Result<string, string>, reply: Reply,
                                 f0: Option<Exc>, f1: Option<Exc>, t0: int, t1: int)
    ensures Pending(ProcessWrites(records, id, text, reply, f0, f1, t0, t1)) <= Pending(records)
  {
    match text
    case Err(message) =>
      SetByIdKeepsPending(records, id, FailedFields(message, t0));
    case Ok(_) =>
      EmbedWritesKeepPending(records, id, reply, f0, f1, t0, t1);
  }

  /** Stores a vector as "completed" with `completedAt` = `t0`; when the store
      raises on that write, stores its exception as "failed" with
      `failedAt` = `t1` instead. */
  method StoreVector(col: Collection, id: Value, vector: seq<real>, t0: int, t1: int)
    requires col.Valid()
    modifies col
    ensures col.Valid() && col.ops >= old(col.ops)
    ensures col.records == EmbedWrites(old(col.records), id, Embedding(vector),
                                       col.faultAt(old(col.ops)), col.faultAt(old(col.ops) + 1), t0, t1)
  {
    var failure := col.UpdateOne(id, CompletedFields(vector, t0));
    if failure.Some? {
      MarkFailed(col, id, Describe(failure.value), t1);
    }
  }

  /** Stores the provider's reply for the job `id`: a vector as "completed";
      the provider's exception, or the store's exception on that write, as "failed". */
  method StoreReply(col: Collection, id: Value, reply: Reply, t0: int, t1: int)
    requires col.Valid()
    modifies col
    ensures col.Valid() && col.ops >= old(col.ops)
    ensures col.records == EmbedWrites(old(col.records), id, reply,
                                       col.faultAt(old(col.ops)), col.faultAt(old(col.ops) + 1), t0, t1)
  {
    match reply
    case Raised(e) =>
      MarkFailed(col, id, Describe(e), t0);
    case Embedding(v) =>
      StoreVector(col, id, v, t0, t1);
  }

  /** `process_embedding` for the claimed job `doc`. `reply` is what the
      provider answers if it is asked, and `t0`, `t1` are the readings of
      `utc_now()` for the first and the second store write. A job without
      usable text is marked failed without asking the provider; otherwise the
      provider is asked exactly once, and `request` is the (model, input)
      pair it is asked with. */
  method ProcessEmbedding(col: Collection, doc: Record, preferred: Option<string>, model: string,
                          reply: Reply, t0: int, t1: int) returns (request: Option<(string, string)>)
    requires col.Valid()
    modifies col
    ensures col.Valid() && col.ops >= old(col.ops)
    ensures Pending(col.records) <= Pending(old(col.records))
    ensures request == match Extraction(doc, preferred) case Ok(text) => Some((model, text)) case Err(_) => None
    ensures col.records == ProcessWrites(old(col.records), IdOf(doc), Extraction(doc, preferred), reply,
                                         col.faultAt(old(col.ops)), col.faultAt(old(col.ops) + 1), t0, t1)
  {
    var embId := IdOf(doc);
    var text := ExtractTextForEmbedding(doc, preferred);
    if text.Err? {
      MarkFailed(col, embId, text.error, t0);
      ProcessWritesKeepPending(old(col.records), embId, text, reply, col.faultAt(old(col.ops)), col.faultAt(old(col.ops) + 1), t0, t1);
      return None;
    }
    request := Some((model, text.value));
    StoreReply(col, embId, reply, t0, t1);
    ProcessWritesKeepPending(old(col.records), embId, text, reply, col.faultAt(old(col.ops)), col.faultAt(old(col.ops) + 1), t0, t1);
  }


  /** `_short_id`: ids of at most 8 characters are shown whole, longer ones
      as their first 6 characters, an ellipsis and their last 2. */
  function ShortId(s: string): (r: string)
    ensures |s| <= 8 ==> r == s
    ensures |s| > 8 ==> |r| == 9 && r[..6] == s[..6] && r[6] == '…' && r[7..] == s[|s| - 2..]
  {
    if |s| <= 8 then s else s[..6] + "…" + s[|s| - 2..]
  }

  /** Shortening never yields more than 9 characters, and a shortened id is
      its own short form. */
  lemma ShortIdStable(s: string)
    ensures |ShortId(s)| <= 9
    ensures ShortId(ShortId(s)) == ShortId(s)
  {
    if |s| > 8 {
      var r := ShortId(s);
      assert r[..6] + "…" + r[7..] == r;
    }
  }

  // ---------------------------------------------------------------------
  // Polling

  /** One iteration of the inner loop of `run_polling_loop`: claims a job at
      clock reading `now` and, when one is claimed, processes it with the
      further readings `t0`, `t1` and the provider reply `reply`. */
  method ClaimAndProcess(col: Collection, preferred: Option<string>, model: string,
                         now: int, reply: Reply, t0: int, t1: int) returns (claimed: bool)
    requires col.Valid()
    modifies col
    ensures col.Valid() && col.ops > old(col.ops)
    ensures !claimed ==> col.records == old(col.records)
                         && (Pending(col.records) == {} || col.faultAt(col.ops - 1).Some?)
    ensures claimed ==> Pending(col.records) < Pending(old(col.records))
  {
    var emb := ClaimPending(col, now);
    if emb.None? {
      return false;
    }
    var _ := ProcessEmbedding(col, emb.value, preferred, model, reply, t0, t1);
    return true;
  }

  /** One pass of the inner loop of `run_polling_loop`: claims and processes
      jobs until a claim yields nothing, then reports whether any job was
      claimed and whether the worker now sleeps for the poll interval. The
      j-th job claimed in the pass is claimed at reading `clock(3 * j)`, its
      writes take `clock(3 * j + 1)` and `clock(3 * j + 2)`, and the
      provider answers it with `replies(j)`; the final, empty claim reads
      `clock(3 * j)` for j the number of jobs. */
  method DrainOnce(col: Collection, preferred: Option<string>, model: string,
                   clock: nat -> int, replies: nat -> Reply)
    returns (didWork: bool, sleepsPollInterval: bool)
    requires col.Valid()
    modifies col
    ensures col.Valid() && col.ops > old(col.ops)
    ensures sleepsPollInterval == !didWork
    ensures !didWork ==> col.records == old(col.records)
    ensures didWork ==> Pending(old(col.records)) != {}
    ensures Pending(col.records) <= Pending(old(col.records))
    ensures Pending(col.records) == {} || col.faultAt(col.ops - 1).Some?
  {
    didWork := false;
    var jobs: nat := 0;
    while true
      invariant col.Valid() && col.ops >= old(col.ops)
      invariant Pending(col.records) <= Pending(old(col.records))
      invariant !didWork ==> col.records == old(col.records)
      invariant didWork ==> Pending(old(col.records)) != {}
      decreases |Pending(col.records)|
    {
      ghost var before := col.records;
      var claimed := ClaimAndProcess(col, preferred, model, clock(3 * jobs), replies(jobs),
                                     clock(3 * jobs + 1), clock(3 * jobs + 2));
      if !claimed {
        break;
      }
      StrictSubsetCard(Pending(col.records), Pending(before));
      didWork := true;
      jobs := jobs + 1;
    }
    sleepsPollInterval := !didWork;
  }

  lemma StrictSubsetCard<T>(a: set<T>, b: set<T>)
    requires a < b
    ensures |a| < |b|
  {
    var rest := b - a;
    assert b == a + rest;
    assert a * rest == {};
    assert rest != {} by {
      assert a != b;
    }
  }

  // ---------------------------------------------------------------------
  // Startup

  datatype WorkerConfig = WorkerConfig(apiKey: string, model: string, pollInterval: string,
                                       mongoUrl: string, database: string,
                                       embeddingsCollection: string, documentsCollection: string)

  /** A startup failure: the process exit status and the message on stderr. */
  datatype Exit = Exit(status: int, message: string)

  const MissingApiKey: string := "ERROR: OPENAI_API_KEY is required in environment."
  const MissingMongoUrl: string := "ERROR: MONGO_URL is required in environment."

  /** The last line of the traceback `float()` leaves for a value it
      cannot parse (the value itself is printed with `repr`). */
  function InvalidFloat(text: string): string {
    "ValueError: could not convert string to float: " + text
  }

  /** The configuration `main` and `get_db` read from the environment.
      `urlDatabase` is the database named in the connection string, if any,
      and `isFloat` tells which texts `float()` accepts; the `ValueError`
      it raises otherwise is not caught, so the process exits with status 1
      before the store URL is looked at. */
  function WorkerStartup(env: Env, urlDatabase: Option<string>, isFloat: string -> bool): Result<WorkerConfig, Exit> {
    var apiKey := Getenv(env, "OPENAI_API_KEY");
    if !Truthy(apiKey) then Err(Exit(1, MissingApiKey))
    else
      var model := GetenvOr(env, "EMBEDDING_MODEL", "solar-embedding-1-large-query");
      var poll := GetenvOr(env, "POLL_INTERVAL", "1.0");
      if !isFloat(poll) then Err(Exit(1, InvalidFloat(poll)))
      else
        var url := Getenv(env, "MONGO_URL");
        if !Truthy(url) then Err(Exit(1, MissingMongoUrl))
        else
          var db := if Truthy(Getenv(env, "MONGO_DB")) then env["MONGO_DB"] else urlDatabase.GetOr("pagemate");
          var embs := GetenvOr(env, "MONGO_COLLECTION", GetenvOr(env, "MONGO_EMBEDDINGS_COLLECTION", "document_embeddings"));
          var docs := GetenvOr(env, "MONGO_DOCUMENTS_COLLECTION", "documents");
          Ok(WorkerConfig(apiKey.value, model, poll, url.value, db, embs, docs))
  }

  /** Startup exits with status 1 when the API key is missing or empty,
      when the poll interval is not a number, or when the store URL is
      missing or empty, checked in that order; otherwise it starts with
      those values and the documented defaults. */
  lemma WorkerStartupSpec(env: Env, urlDatabase: Option<string>, isFloat: string -> bool)
    ensures var poll := GetenvOr(env, "POLL_INTERVAL", "1.0");
      WorkerStartup(env, urlDatabase, isFloat).Err? <==>
        !Truthy(Getenv(env, "OPENAI_API_KEY")) || !isFloat(poll) || !Truthy(Getenv(env, "MONGO_URL"))
    ensures WorkerStartup(env, urlDatabase, isFloat).Err? ==> WorkerStartup(env, urlDatabase, isFloat).error.status == 1
    ensures !Truthy(Getenv(env, "OPENAI_API_KEY")) ==> WorkerStartup(env, urlDatabase, isFloat).error.message == MissingApiKey
    ensures var poll := GetenvOr(env, "POLL_INTERVAL", "1.0");
      Truthy(Getenv(env, "OPENAI_API_KEY")) && !isFloat(poll) ==>
        WorkerStartup(env, urlDatabase, isFloat).error.message == InvalidFloat(poll)
    ensures var poll := GetenvOr(env, "POLL_INTERVAL", "1.0");
      Truthy(Getenv(env, "OPENAI_API_KEY")) && isFloat(poll) && !Truthy(Getenv(env, "MONGO_URL")) ==>
        WorkerStartup(env, urlDatabase, isFloat).error.message == MissingMongoUrl
    ensures WorkerStartup(env, urlDatabase, isFloat).Ok? ==>
              var c := WorkerStartup(env, urlDatabase, isFloat).value;
              c.apiKey == env["OPENAI_API_KEY"] && c.mongoUrl == env["MONGO_URL"]
              && isFloat(c.pollInterval)
              && ("POLL_INTERVAL" !in env ==> c.pollInterval == "1.0")
              && ("EMBEDDING_MODEL" !in env ==> c.model == "solar-embedding-1-large-query")
              && ("MONGO_DB" !in env && urlDatabase.None? ==> c.database == "pagemate")
              && ("MONGO_COLLECTION" in env ==> c.embeddingsCollection == env["MONGO_COLLECTION"])
              && ("MONGO_COLLECTION" !in env && "MONGO_EMBEDDINGS_COLLECTION" !in env ==>
                    c.embeddingsCollection == "document_embeddings")
              && ("MONGO_DOCUMENTS_COLLECTION" !in env ==> c.documentsCollection == "documents")
  {
  }
}
