/**
 * internal/db/client.go: creating, listing and deleting transactions against the
 * table. DynamoDB itself is an abstract Store that records every request it is sent
 * and answers from a fixed function of everything sent so far.
 */
module DbClient {
  import opened Wrappers
  import opened Dynamo
  import opened DbTransaction
  import opened DbQuery

  // ---------------------------------------------------------------------------
  // The store

  /** The requests the client sends: PutItem, DeleteItem, Query and Scan. */
  datatype Request =
    | PutItem(tableName: string, item: Item)
    | DeleteItem(tableName: string, key: Item)
    | QueryRequest(input: QueryInput)
    | ScanRequest(tableName: string)

  /** A failure the store reports (service, throttling or transport error); opaque here. */
  datatype StoreError = StoreError(message: string)

  /** The store's answer to a request: an error, or the items read and the last evaluated key (nil on the last page). */
  datatype Reply = Reply(error: Option<StoreError>, items: seq<Item>, lastEvaluatedKey: AttrMap)

  /** DynamoDB as the client sees it: the requests sent so far and how it answers. */
  class Store {
    var sent: seq<Request>
    const answer: seq<Request> -> Reply

    constructor (answer: seq<Request> -> Reply)
      ensures sent == [] && this.answer == answer
    {
      sent := [];
      this.answer := answer;
    }

    /**
     * Every answer to a Query whose rows decode carries a last evaluated key the client can
     * read (TransactionPKFromAttributes panics otherwise).
     */
    ghost predicate QueryKeysReadable() {
      forall h: seq<Request> :: h != [] && h[|h| - 1].QueryRequest? ==> PageReadable(answer(h))
    }

    /** One call: the request is recorded, and the answer is the store's answer to the history so far. */
    method Send(r: Request) returns (reply: Reply)
      modifies this
      ensures sent == old(sent) + [r]
      ensures reply == answer(sent)
    {
      sent := sent + [r];
      reply := answer(sent);
    }
  }

  // ---------------------------------------------------------------------------
  // Items (attributevalue.MarshalMap and UnmarshalListOfMaps for Transaction)

  /** Why an item does not decode: an attribute whose type does not fit its field. */
  datatype AttrError = UnmarshalTypeError(attribute: string)

  /**
   * MarshalMap of a Transaction. The attribute names are the `dynamodbav` tags; the ID
   * field's tag is spelled `danamodbav`, which the encoder does not read, so ID is
   * stored under its Go field name "ID".
   */
  function MarshalItem(t: Transaction): (item: Item)
    ensures item.Keys == {"user_id", "ts", "ID", "origin", "operation_type", "amount"}
  {
    map["user_id" := S(t.userId), "ts" := S(t.timestamp), "ID" := S(t.id),
        "origin" := S(t.origin), "operation_type" := S(t.operationType), "amount" := N(t.amount)]
  }

  /** A string field: a missing or NULL attribute leaves it "", an S attribute sets it, anything else is an error. */
  function StringField(item: Item, name: string): Result<string, AttrError> {
    if name !in item then Success("")
    else
      match item[name]
      case S(s) => Success(s)
      case NULL => Success("")
      case _ => Failure(UnmarshalTypeError(name))
  }

  /** A number field: a missing or NULL attribute leaves it 0, an N attribute sets it, anything else is an error. */
  function NumberField(item: Item, name: string): Result<real, AttrError> {
    if name !in item then Success(0.0)
    else
      match item[name]
      case N(n) => Success(n)
      case NULL => Success(0.0)
      case _ => Failure(UnmarshalTypeError(name))
  }

  /** UnmarshalMap into a Transaction; attributes that name no field are ignored. */
  function DecodeItem(item: Item): Result<Transaction, AttrError> {
    var userId :- StringField(item, "user_id");
    var timestamp :- StringField(item, "ts");
    var id :- StringField(item, "ID");
    var origin :- StringField(item, "origin");
    var operationType :- StringField(item, "operation_type");
    var amount :- NumberField(item, "amount");
    Success(Transaction(userId, timestamp, id, origin, operationType, amount))
  }

  /** What Create stores reads back as the same transaction. */
  lemma ItemRoundTrip(t: Transaction)
    ensures DecodeItem(MarshalItem(t)) == Success(t)
  {
  }

  /** UnmarshalListOfMaps: every row decoded, in order, or the first error and no rows. */
  function DecodeRows(items: seq<Item>): (r: Result<seq<Transaction>, AttrError>)
    ensures r.Success? <==> forall i :: 0 <= i < |items| ==> DecodeItem(items[i]).Success?
    ensures r.Success? ==> |r.value| == |items|
    ensures r.Success? ==> forall i :: 0 <= i < |items| ==> DecodeItem(items[i]) == Success(r.value[i])
  {
    if items == [] then Success([])
    else
      var first :- DecodeItem(items[0]);
      var others :- DecodeRows(items[1..]);
      Success([first] + others)
  }

  // ---------------------------------------------------------------------------
  // Outcomes

  /** The errors the client returns. */
  datatype ClientError =
    | Invalid(errors: seq<FieldError>)
    | BadCursor(codecError: CodecError)
    | StoreFailed(storeError: StoreError)
    | DecodeFailed(attrError: AttrError)

  /** The error of a call whose only result is the store's error, if any. */
  function ErrorOf(reply: Reply): (err: Option<ClientError>)
    ensures err.None? <==> reply.error.None?
  {
    if reply.error.Some? then Some(StoreFailed(reply.error.value)) else None
  }

  /** The key Delete sends: the two key attributes of the record, as strings. */
  function KeyItem(t: Transaction): (key: Item)
    ensures key.Keys == {"user_id", "ts"}
  {
    map["user_id" := S(t.userId), "ts" := S(t.timestamp)]
  }

  /** The key Delete sends names the record it was made from: it reads back as that record's key attributes. */
  lemma KeyItemNamesRecord(t: Transaction)
    ensures HasKeyAttributes(Some(KeyItem(t)))
    ensures FromAttributes(Some(KeyItem(t))) == TransactionPK(t.userId, t.timestamp)
  {
  }

  /** Scan's result from the store's answer: the store error, or all rows decoded, or the decoding error. */
  function ScanResult(reply: Reply): (r: Result<seq<Transaction>, ClientError>)
    ensures r.Success? <==> reply.error.None? && DecodeRows(reply.items).Success?
    ensures r.Success? ==> r.value == DecodeRows(reply.items).value
  {
    if reply.error.Some? then Failure(StoreFailed(reply.error.value))
    else
      match DecodeRows(reply.items)
      case Failure(e) => Failure(DecodeFailed(e))
      case Success(rows) => Success(rows)
  }

  /** Whether the page of a reply can be built without the key type assertions panicking. */
  predicate PageReadable(reply: Reply) {
    reply.error.None? && DecodeRows(reply.items).Success? ==> HasKeyAttributes(reply.lastEvaluatedKey)
  }

  /**
   * The tail of Query once the store has answered: the store error, or the decoded rows
   * (all of them or none) and the cursor made from the last evaluated key.
   */
  function PageOf(reply: Reply): (r: Result<ListResponse, ClientError>)
    requires PageReadable(reply)
    ensures r.Success? <==> reply.error.None? && DecodeRows(reply.items).Success?
    ensures r.Success? ==> |r.value.items| == |reply.items|
    ensures r.Success? ==> forall i :: 0 <= i < |reply.items| ==> DecodeItem(reply.items[i]) == Success(r.value.items[i])
    ensures r.Success? ==>
      (r.value.cursor == "" <==> reply.lastEvaluatedKey.None? || FromAttributes(reply.lastEvaluatedKey) == EmptyPK)
    ensures r.Success? ==> FromBase64(r.value.cursor) == Success(FromAttributes(reply.lastEvaluatedKey))
  {
    if reply.error.Some? then Failure(StoreFailed(reply.error.value))
    else
      match DecodeRows(reply.items)
      case Failure(e) => Failure(DecodeFailed(e))
      case Success(rows) =>
        var pk := FromAttributes(reply.lastEvaluatedKey);
        CursorRoundTrip(pk);
        Success(ListResponse(rows, ToBase64(pk)))
  }

  /**
   * The page's cursor, given back as the next request's `after`, makes the next query
   * start at the last evaluated key, provided that key holds just the two key
   * attributes (as DynamoDB returns it for this table).
   */
  lemma NextPageStartsAtLastKey(reply: Reply, req: UserListRequest, tableName: string)
    requires PageReadable(reply) && PageOf(reply).Success?
    requires reply.lastEvaluatedKey.Some? ==> reply.lastEvaluatedKey.value.Keys == {"user_id", "ts"}
    requires reply.lastEvaluatedKey.Some? ==> FromAttributes(reply.lastEvaluatedKey) != EmptyPK
    ensures var next := req.(after := PageOf(reply).value.cursor);
      ToQueryInput(next, tableName).Success?
      && ToQueryInput(next, tableName).value.exclusiveStartKey == reply.lastEvaluatedKey
  {
    if reply.lastEvaluatedKey.Some? {
      AttributesRebuilt(reply.lastEvaluatedKey);
    }
  }

  /** Create's validation runs after the defaults: a record lacking only its ID and timestamp is accepted. */
  lemma DefaultsBeforeValidation(t: Transaction, newId: string, now: string)
    requires newId != "" && now != ""
    requires t.userId != "" && t.origin != "" && t.operationType != "" && t.amount > 0.0
    ensures Validate(WithDefaults(t, newId, now)) == []
  {
  }

  // ---------------------------------------------------------------------------
  // The client

  class Client {
    const store: Store
    const table: string

    constructor (store: Store, table: string)
      ensures this.store == store && this.table == table
    {
      this.store := store;
      this.table := table;
    }

    /**
     * Create: the defaults are filled in the caller's record, then the record is
     * validated, and only a valid record is put.
     */
    method Create(t: TransactionRecord, newId: string, now: string) returns (err: Option<ClientError>)
      modifies t, store
      ensures t.Value() == WithDefaults(old(t.Value()), newId, now)
      ensures Validate(t.Value()) != [] ==> err == Some(Invalid(Validate(t.Value()))) && store.sent == old(store.sent)
      ensures Validate(t.Value()) == [] ==>
        store.sent == old(store.sent) + [PutItem(table, MarshalItem(t.Value()))]
        && err == ErrorOf(store.answer(store.sent))
    {
      t.SetDefaults(newId, now);
      var errs := Validate(t.Value());
      if errs != [] {
        return Some(Invalid(errs));
      }
      var reply := store.Send(PutItem(table, MarshalItem(t.Value())));
      err := ErrorOf(reply);
    }

    /** Delete: one DeleteItem keyed by the record's user_id and ts. */
    method Delete(t: Transaction) returns (err: Option<ClientError>)
      modifies store
      ensures store.sent == old(store.sent) + [DeleteItem(table, KeyItem(t))]
      ensures err == ErrorOf(store.answer(store.sent))
    {
      var reply := store.Send(DeleteItem(table, KeyItem(t)));
      err := ErrorOf(reply);
    }

    /** Scan: one Scan of the table and its rows decoded (a single page). */
    method Scan() returns (r: Result<seq<Transaction>, ClientError>)
      modifies store
      ensures store.sent == old(store.sent) + [ScanRequest(table)]
      ensures r == ScanResult(store.answer(store.sent))
    {
      var reply := store.Send(ScanRequest(table));
      r := ScanResult(reply);
    }

    /**
     * What the delete loop of DeleteAll does from history on: one delete per record, in
     * order, until the store reports an error.
     */
    function DeleteRun(history: seq<Request>, txs: seq<Transaction>): (r: (seq<Request>, Option<ClientError>))
      ensures |history| <= |r.0| <= |history| + |txs| && r.0[..|history|] == history
      ensures forall i :: |history| <= i < |r.0| ==> r.0[i] == DeleteItem(table, KeyItem(txs[i - |history|]))
      decreases |txs|
    {
      if txs == [] then (history, None)
      else
        var h := history + [DeleteItem(table, KeyItem(txs[0]))];
        var reply := store.answer(h);
        if reply.error.Some? then (h, ErrorOf(reply))
        else DeleteRun(h, txs[1..])
    }

    /**
     * The loop stops at the first error: every delete before the last one succeeded;
     * without an error every record was deleted, and otherwise the error is the last
     * delete's.
     */
    lemma {:induction false} DeleteRunStopsAtFirstError(history: seq<Request>, txs: seq<Transaction>)
      ensures var r := DeleteRun(history, txs);
        forall i :: |history| < i < |r.0| ==> store.answer(r.0[..i]).error.None?
      ensures var r := DeleteRun(history, txs);
        r.1.None? ==> |r.0| == |history| + |txs| && (|txs| > 0 ==> store.answer(r.0).error.None?)
      ensures var r := DeleteRun(history, txs);
        r.1.Some? ==> |r.0| > |history| && r.1 == ErrorOf(store.answer(r.0))
      decreases |txs|
    {
      if txs != [] {
        var h := history + [DeleteItem(table, KeyItem(txs[0]))];
        if store.answer(h).error.None? {
          DeleteRunStopsAtFirstError(h, txs[1..]);
          var r := DeleteRun(h, txs[1..]);
          forall i | |history| < i < |r.0|
            ensures store.answer(r.0[..i]).error.None?
          {
            if i == |h| {
              assert r.0[..i] == h;
            }
          }
        }
      }
    }

    /** DeleteAll: scan, then delete the scanned records one by one, stopping at the first error. */
    method DeleteAll() returns (err: Option<ClientError>)
      modifies store
      ensures var h := old(store.sent) + [ScanRequest(table)];
        var scanned := ScanResult(store.answer(h));
        (scanned.Failure? ==> err == Some(scanned.error) && store.sent == h)
        && (scanned.Success? ==> (store.sent, err) == DeleteRun(h, scanned.value))
    {
      var scanned := Scan();
      if scanned.Failure? {
        return Some(scanned.error);
      }
      var txs := scanned.value;
      ghost var start := store.sent;
      var i := 0;
      while i < |txs|
        invariant 0 <= i <= |txs|
        invariant DeleteRun(start, txs) == DeleteRun(store.sent, txs[i..])
      {
        var e := Delete(txs[i]);
        if e.Some? {
          return e;
        }
        i := i + 1;
      }
      err := None;
    }

    /**
     * Query: validation and the cursor come first and a failure there sends nothing;
     * otherwise one Query is sent and the page is built from its answer.
     */
    method Query(req: UserListRequest) returns (r: Result<ListResponse, ClientError>)
      requires store.QueryKeysReadable()
      modifies store
      ensures ValidateRequest(req) != [] ==>
        r == Failure(Invalid(ValidateRequest(req))) && store.sent == old(store.sent)
      ensures ValidateRequest(req) == [] && ToQueryInput(req, table).Failure? ==>
        r == Failure(BadCursor(ToQueryInput(req, table).error)) && store.sent == old(store.sent)
      ensures ValidateRequest(req) == [] && ToQueryInput(req, table).Success? ==>
        store.sent == old(store.sent) + [QueryRequest(ToQueryInput(req, table).value)]
        && PageReadable(store.answer(store.sent)) && r == PageOf(store.answer(store.sent))
    {
      var errs := ValidateRequest(req);
      if errs != [] {
        return Failure(Invalid(errs));
      }
      var input := ToQueryInput(req, table);
      if input.Failure? {
        return Failure(BadCursor(input.error));
      }
      var reply := store.Send(QueryRequest(input.value));
      r := PageOf(reply);
    }
  }
}
