# Transactions store: cursor pagination over a DynamoDB table, in Dafny

This project models the data layer of a small transactions service (`internal/db`). Transactions live in a
DynamoDB table. The partition key is `user_id` and the sort key is `ts`. The layer covers:

- **The key and its two encodings** (`transaction.go`): the key `TransactionPK` becomes a store attribute
  map, or an opaque page cursor. The cursor is the standard base64 (section 4 of RFC 4648, with padding)
  of the key's JSON object (RFC 8259), written with `omitempty` fields. The empty key stands for "no key"
  in both encodings: the nil map and the empty cursor.
- **The transaction record** (`transaction.go`): `SetDefaults` fills an empty ID and an empty timestamp in
  place. `Validate` applies the `required` tags and Amount's `gte=0`.
- **The list request** (`query.go`): it is read from an API Gateway proxy request and validated. It is then
  planned as a key condition `user_id = UserID AND begins_with(ts, TimestampPrefix)`, plus one filter call
  per non-empty filter field, the decoded cursor as the exclusive start key, and the limit.
- **The limit** (`util.go`): `fmt.Sscanf(s, "%d", &i)` into an `int32`, with `""` meaning no limit.
- **The client** (`client.go`): `Create`, `Delete`, `DeleteAll`, `Query` and `Scan` against an abstract
  store. The store records every request it is sent and answers with a fixed function of that history.

The Go standard-library pieces the cursor depends on are modelled as they behave, each in its own module:

- `Base64`: `base64.StdEncoding`. The decoder skips `\r` and `\n`, requires padding and ignores the padding
  bits.
- `Json`: the parts of `encoding/json` the cursor uses.
  - The string writer escapes `<`, `>`, `&`, U+2028 and U+2029.
  - The reader checks the whole syntax, including the nesting limit, and unquotes strings.
  - Binding to the struct matches keys case-insensitively, lets the last duplicate key win and treats
    `null` as "leave the field alone".
- `Utf8`: the rune encoder and `utf8.DecodeRune`.

`Dynamo` holds the SDK's attribute values as a datatype. The `attributevalue` codec for `Transaction` is in
`DbClient`.

Modules:

- `Wrappers`: `Option`, `Result`.
- `Utf8`, `Base64`, `Json`, `Dynamo`: the library pieces above.
- `DbTransaction`, `DbQuery`, `DbUtil`, `DbClient`: one module per core file.

`SetDefaults` is a method on a `TransactionRecord` class, because the source updates `*Transaction` in
place. `Create`, `Delete`, `Scan`, `DeleteAll` and `Query` are methods of a `Client` class over a `Store`
object. The methods state the requests sent and the result as functions of the store's answers. Everything
else is functions and lemmas.

Where the service's documented intent and the code disagree, the model follows the code:

- **Cursor alphabet.** The cursor uses the standard alphabet, not the URL-safe one. A token with `-` or
  `_` is refused (`DbTransaction.ForeignCharRefused`).
- **Limit.** The limit is copied as scanned. Zero and negative values are not refused.
- **The empty record.** After the defaults, an empty record fails on four fields, not five. The defaults
  fill ID and timestamp, and Amount fails `required` (`DbTransaction.EmptyRecordRejected`).
- **Missing attributes.** A stored item that lacks an attribute decodes with that field at its zero value;
  it is not an error. The SDK decoder leaves the field untouched, and a NULL attribute likewise gives the
  zero value.

## Model

| member | source | states |
|---|---|---|
| DbTransaction.ToAttributes | internal/db/transaction.go:50-60 | nil exactly for the empty key, otherwise exactly the attributes `user_id` and `ts`, both strings, so the result can always be read back |
| DbTransaction.AttributesRoundTrip | internal/db/transaction.go:21-30 | reading back the attributes of any key, the empty key included, gives the key |
| DbTransaction.AttributesRebuilt | internal/db/transaction.go:21-30 | conversely, a map of exactly the two string key attributes, not both empty, is rebuilt unchanged |
| DbTransaction.EmptyKeyIsNil | internal/db/transaction.go:22-24 | the empty key and the nil map stand for each other |
| DbTransaction.JsonFields | internal/db/transaction.go:15-18 | json.Marshal with `omitempty` writes exactly the non-empty fields, each with its own value, `user_id` before `ts`: the `user_id` member iff the user id is non-empty, the `ts` member iff the timestamp is non-empty, no other member, and no member at all exactly for the empty key |
| DbTransaction.ToBase64 | internal/db/transaction.go:63-73 | "" exactly for the empty key; otherwise only characters of the standard alphabet and `=`, with a length that is a multiple of 4 |
| DbTransaction.MarshalRoundTrip | internal/db/transaction.go:68 | json.Unmarshal of json.Marshal of every key gives the key, including keys with one field empty |
| DbTransaction.UnmarshalObject | internal/db/transaction.go:42-43 | bytes that parse as a JSON object bind its members, in order, to the zero key |
| DbTransaction.BindOne | internal/db/transaction.go:16-17 | a `user_id` string member sets the user id and a `ts` string member sets the timestamp, and nothing else |
| DbTransaction.BindFieldsRoundTrip | internal/db/transaction.go:15-18 | binding the members the writer emitted for a key gives that key |
| DbTransaction.CursorRoundTrip | internal/db/transaction.go:33-73 | for every key, decoding the token ToBase64 makes gives the key back without error |
| DbTransaction.EmptyCursor | internal/db/transaction.go:34-36 | ToBase64 of the empty key is "", and "" decodes to the empty key without error |
| DbTransaction.ForeignCharRefused | internal/db/transaction.go:38-41 | a token holding a character outside the standard alphabet, `=` and the skipped newlines (for example URL-safe `-` or `_`) is refused as corrupt base64 |
| DbTransaction.BadJsonRefused | internal/db/transaction.go:43-45 | a token whose bytes are not JSON is refused with the syntax error |
| DbTransaction.NonObjectRefused | internal/db/transaction.go:43-45 | a token whose JSON is neither an object nor null is refused with the type error |
| DbTransaction.MismatchedMember | internal/db/transaction.go:16-17 | a member naming `user_id` or `ts` whose value is neither a string nor null is a type error, whatever was bound before |
| DbTransaction.BindStopsAtMismatch | internal/db/transaction.go:43-45 | binding fails with the type error as soon as one member fails, after any members that bind |
| DbTransaction.FieldTypeMismatchRefused | internal/db/transaction.go:43-45 | a token whose JSON object has a `user_id` or `ts` member holding a number, a boolean, an array or an object (after members that bind) is refused with the type error |
| DbTransaction.TransactionRecord.SetDefaults | internal/db/transaction.go:91-98 | the record afterwards is WithDefaults of the record before: the ID and the timestamp are filled only where empty |
| DbTransaction.DefaultsFillOnlyEmpty | internal/db/transaction.go:91-98 | only an empty ID or timestamp is replaced by the generated value; every other field and any non-empty ID or timestamp is kept |
| DbTransaction.DefaultsIdempotent | internal/db/transaction.go:91-98 | with non-empty generated values, applying the defaults a second time changes nothing, whatever the second values |
| DbTransaction.AmountErrors | internal/db/transaction.go:82 | `required,gte=0` on Amount: no error iff the amount is positive; at most one error, about Amount |
| DbTransaction.Validate | internal/db/transaction.go:101-105 | no error iff all five strings are non-empty and the amount is positive |
| DbTransaction.ValidateReportsFailingFields | internal/db/transaction.go:76-83 | an error is reported exactly when the record fails the check behind it: every failing field with its failing tag, and no other |
| DbTransaction.ValidateInFieldOrder | internal/db/transaction.go:76-83 | the errors come at most one per field, in declaration order |
| DbTransaction.MissingAmountRejected | cmd/transactions/main_test.go:61-63 | a record without an amount, whose ID and timestamp come from the defaults, fails on Amount's `required` tag alone |
| DbTransaction.EmptyRecordRejected | internal/db/transaction.go:76-105 | the empty record, after the defaults, fails `required` on UserID, Origin, OperationType and Amount, in that order |
| DbQuery.FromAPIGatewayProxyRequest | internal/db/query.go:30-45 | fails exactly when the limit parameter does not scan |
| DbQuery.ProxyRequestFields | internal/db/query.go:37-44 | `user_id` and `ts` come from the path parameters and `origin`, `operation_type` and `after` from the query string, a missing one being ""; the limit is absent iff the parameter is missing or "", and a present limit is the value stringToInt32Ptr scans from the parameter |
| DbQuery.ProxyRequestFails | internal/db/query.go:33-36 | the request fails iff the limit parameter is present, non-empty and does not scan as an int32 |
| DbQuery.ValidateRequest | internal/db/query.go:21-22 | no error iff UserID and TimestampPrefix are both non-empty; each is reported iff it is empty |
| DbQuery.MissingKeysReported | cmd/transactions/main_test.go:92 | with both keys empty, both are reported, UserID first |
| DbQuery.ToExpression | internal/db/query.go:53-70 | the key condition is `user_id = UserID AND begins_with(ts, TimestampPrefix)`; there is an `origin` call iff Origin is non-empty and an `operation_type` call iff OperationType is non-empty, no other call, no call when both are empty, and `origin` first when both are present |
| DbQuery.KeyConditionIndependent | internal/db/query_test.go:17-19 | the key condition depends on UserID and TimestampPrefix only, not on the filters, the cursor or the limit |
| DbQuery.FiltersIndependent | internal/db/query.go:60-68 | the filter calls depend on Origin and OperationType only |
| DbQuery.ToQueryInput | internal/db/query.go:74-94 | fails, with the cursor's error, exactly when After does not decode; otherwise the start key is the attributes of the decoded key, and the limit, the table, the key condition and the filter calls are copied |
| DbQuery.NoCursorNoStartKey | internal/db/query.go:80-92 | without a cursor the query input has no start key |
| DbQuery.CursorResumesAtKey | internal/db/query.go:80-92 | a cursor made from a key resumes the query exactly at that key's attributes |
| DbQuery.BadCursorFails | internal/db/query.go:80-83 | a cursor that does not decode makes the query input fail, whatever the other fields |
| DbUtil.SkipSpace | internal/db/util.go:14 | drops leading fmt spaces (a suffix of the input remains, not starting with a space) and fails on a newline among them |
| DbUtil.LeadingDigits | internal/db/util.go:14 | the length of the run of decimal digits the input starts with |
| DbUtil.StringToInt32Ptr | internal/db/util.go:9-20 | no value and no error exactly for ""; a success on non-empty input always carries a value, and the value is an int32 by its type |
| DbUtil.DecimalValueOfFormat | internal/db/util.go:14 | the digits Itoa writes for a natural number evaluate back to it |
| DbUtil.ScanDecimal | internal/db/util.go:14-17 | Sscanf `%d` of the decimal text of any integer, followed by a non-digit or nothing, gives the integer when it fits in an int32 and the range error otherwise |
| DbUtil.ScanFormatted | internal/db/util.go:9-20 | round trip: the decimal text of every int32 scans back as that value, whatever non-digit text follows |
| DbUtil.OutOfRangeRefused | internal/db/util.go:14-17 | a decimal number outside int32 is refused with the range error |
| DbUtil.NonNumericRefused | internal/db/util.go:14-17 | text that starts with neither a space, a sign nor a digit is refused as "expected integer" |
| DbUtil.ParsesPositive | internal/db/util_test.go:14 | "123" gives 123 |
| DbUtil.ParsesNegative | internal/db/util_test.go:15 | "-456" gives -456 |
| DbUtil.ParsesZero | internal/db/util_test.go:16 | "0" gives 0 |
| DbUtil.EmptyAndNonNumericCases | internal/db/util_test.go:17-18 | "" gives no value and no error; "abc" gives "expected integer" |
| DbClient.Store.Send | internal/db/client.go:36-39 | one store call: the request is appended to the history and the reply is the store's answer to that history |
| DbClient.MarshalItem | internal/db/client.go:32 | the item has exactly the attributes `user_id`, `ts`, `ID`, `origin`, `operation_type` and `amount`; the ID is stored under `ID` because its struct tag is misspelled |
| DbClient.ItemRoundTrip | internal/db/client.go:32 | what Create stores decodes back as the same transaction |
| DbClient.DecodeRows | internal/db/client.go:94-99 | succeeds iff every row decodes; the rows then come out one for one, in store order |
| DbClient.ErrorOf | internal/db/client.go:36-41 | a call that returns only the store's error fails iff the store reported one |
| DbClient.KeyItem | internal/db/client.go:46-55 | the key Delete sends has exactly the attributes `user_id` and `ts` |
| DbClient.KeyItemNamesRecord | internal/db/client.go:46-55 | that key reads back as the record's own (user id, timestamp) |
| DbClient.ScanResult | internal/db/client.go:113-124 | succeeds iff the store reported no error and every row decodes, with the decoded rows |
| DbClient.PageOf | internal/db/client.go:86-108 | succeeds iff the store reported no error and every row decodes (no partial page); the items are the decoded rows in store order; the cursor is "" iff there is no last evaluated key (or it is the empty key), and otherwise it decodes back to that key |
| DbClient.NextPageStartsAtLastKey | internal/db/client.go:103-106 | the page's cursor, passed back as the next request's After, makes the next query start exactly at the last evaluated key |
| DbClient.DefaultsBeforeValidation | internal/db/client.go:26-30 | validation runs after the defaults, so a record lacking only its ID and timestamp is valid |
| DbClient.Client.Create | internal/db/client.go:25-42 | the caller's record is updated in place by the defaults; an invalid record returns its validation errors and sends nothing; a valid one sends exactly one PutItem of its item, and the error is the store's |
| DbClient.Client.Delete | internal/db/client.go:45-58 | sends exactly one DeleteItem keyed by the record's `user_id` and `ts`; the error is the store's |
| DbClient.Client.Scan | internal/db/client.go:112-125 | sends exactly one Scan of the table; the result is the decoded rows or the first error |
| DbClient.Client.DeleteRun | internal/db/client.go:66-71 | the delete loop only extends the history, by one DeleteItem per record, in scan order, keyed by each record |
| DbClient.Client.DeleteRunStopsAtFirstError | internal/db/client.go:66-72 | every delete before the last one succeeded; with no error every record was deleted; otherwise the error is the last delete's |
| DbClient.Client.DeleteAll | internal/db/client.go:61-73 | a failed scan returns its error and deletes nothing; otherwise the requests sent and the result are those of the delete loop over the scanned records |
| DbClient.Client.Query | internal/db/client.go:76-109 | a validation failure and then a cursor failure each return their error without a store call; otherwise exactly one Query of the planned input is sent and the result is the page built from its answer |
| Base64.Encode | internal/db/transaction.go:72 | the encoding uses only the standard alphabet and `=`, never a newline, and is empty iff the input is |
| Base64.EncodeSymbols | internal/db/transaction.go:72 | every 6-bit group is a valid symbol (a sextet or the padding) and the output is empty iff the input is |
| Base64.CharValue | internal/db/transaction.go:38 | the decoder's reading of one character: invalid exactly outside the alphabet and `=`, and the padding value exactly for `=` |
| Base64.SymbolRoundTrip | internal/db/transaction.go:38 | the decoder's table inverts the encoder's alphabet |
| Base64.GroupRoundTrip | internal/db/transaction.go:38 | a full group of four symbols decodes to its three bytes, whatever follows |
| Base64.SymbolsRoundTrip | internal/db/transaction.go:38 | decoding the symbols of any byte string gives it back |
| Base64.DecodeEncode | internal/db/transaction.go:38 | round trip: DecodeString of EncodeToString of any bytes is those bytes |
| Base64.EncodedLength | internal/db/transaction.go:72 | the encoding's length is 4·⌈n/3⌉, a multiple of 4 |
| Base64.ForeignCharRejected | internal/db/transaction.go:38-41 | a character outside the alphabet, `=` and the newlines makes the decoder fail |
| Base64.DecodedLength | internal/db/transaction.go:38 | accepted text, without newlines, has a length that is a multiple of 4, and it decodes to between 3·(groups−1)+1 and 3·groups bytes |
| Base64.RemoveNewlines | internal/db/transaction.go:38 | the decoder's input without `\r` and `\n`: no newline is left and nothing is added |
| Base64.RemoveNewlinesKeeps | internal/db/transaction.go:38 | a character is in the filtered text iff it is in the input and is not a newline; every other character is kept as often as it occurs |
| Base64.RemoveNewlinesConcat | internal/db/transaction.go:38 | filtering a concatenation is concatenating the filtered parts, so the kept characters stay in their order |
| Json.EscapeChar | internal/db/transaction.go:68 | an escaped rune never starts with a quote mark and never contains a control byte, `<`, `>` or `&`; it is copied as one byte iff it is ASCII and HTML-safe |
| Json.WriteObject | internal/db/transaction.go:68 | the object is enclosed in braces |
| Json.StringMembers | internal/db/transaction.go:43 | one string member per field, key and value as given |
| Json.EscapeCharParses | internal/db/transaction.go:43 | the reader reads an escaped rune back as that rune, using exactly its bytes |
| Json.QuoteBodyParses | internal/db/transaction.go:43 | the reader turns the quoted text of any string back into the string, whatever follows the closing quote |
| Json.QuoteParses | internal/db/transaction.go:43 | a quoted string parses as that string value |
| Json.WriteMembersParse | internal/db/transaction.go:43 | the members written for any non-empty field list parse back as those members, in order |
| Json.WriteObjectParses | internal/db/transaction.go:43 | round trip: the object written for any field list parses as the object of those members |
| Json.WriteObjectIsHtmlSafe | internal/db/transaction.go:68 | with HTML escaping, the JSON of any object contains no `<`, `>` or `&` |
| Json.QuoteIsHtmlSafe | internal/db/transaction.go:68 | the quoted text of any string contains no `<`, `>` or `&` |
| Utf8.EncodeChar | internal/db/transaction.go:68 | one to four bytes; a single byte iff the rune is ASCII, and then that byte; otherwise every byte has its high bit set |
| Utf8.DecodeEncodeChar | internal/db/transaction.go:43 | DecodeRune of a rune's encoding gives the rune and its byte count, whatever follows |
| Utf8.DecodeRuneIsEncoding | internal/db/transaction.go:43 | conversely, whatever DecodeRune accepts is exactly the encoding of the rune it returns |

## Left out

- `connect` and `NewClient` are not modelled: SDK configuration, the retry policy, endpoint resolution and
  environment variables. This includes the fallback table name "Transactions" (internal/db/client.go:160-162);
  the table name is a constructor parameter of `Client`.
- The clock (`Timestamp()`) and `uuid.New()` are parameters: `SetDefaults`, `Create` and `WithDefaults`
  take the generated ID and timestamp as inputs.
- DbTransaction.DefaultsIdempotent: requires the generated ID and timestamp to be non-empty. A uuid string
  and a formatted time always are, but the model does not produce them.
- `log.Printf` of the last evaluated key in `Query` is not modelled (output only).
- The store's own behaviour is not modelled: key-condition and filter evaluation, Limit, PutItem overwrite,
  paging of Scan. The store is an arbitrary function of the requests sent.
- `Scan` sends one request and reads one page, as the source does; it does not follow LastEvaluatedKey.
- DbQuery.ToExpression: the meaning of two `WithFilter` calls combined is decided inside the SDK's
  expression package. The model keeps the calls as an ordered list and proves nothing about their
  combination.
- `Build`'s error, and the placeholder names and values of the built expression, are not modelled. For
  this request the builder always has a key condition, so the error branch of `ToExpression` and the
  corresponding branch of `ToQueryInput` are dead.
- DbTransaction.FromAttributes: requires `HasKeyAttributes`, and DbClient.Client.Query requires
  `store.QueryKeysReadable()`. TransactionPKFromAttributes asserts that `user_id` and `ts` are S attributes
  and panics otherwise (internal/db/transaction.go:27-28, reached from internal/db/client.go:103). The
  model states that panic as a precondition: the store's Query answers whose rows decode carry a readable last
  evaluated key; the panic itself is not modelled.
- DbTransaction.ToBase64: the error result of the source is not modelled. `json.Marshal` cannot fail on two
  strings, so that branch is dead.
- DbClient.Client.Create: the error branch of `MarshalMap` is not modelled; it cannot fail on this struct.
- DbClient.MarshalItem: every string field is written as an S attribute, the empty string included, which
  is the encoder's behaviour for fields without the `nullempty` tag option; other encoder settings are not
  modelled.
- DbClient.DecodeItem: the SDK decoder's case-insensitive fallback for attribute names is not modelled.
  Items are read by their exact names, which are the names Create writes.
- DbClient.DecodeItem: the error names the first field, in declaration order, whose attribute has the
  wrong type. The SDK ranges over a Go map, so its choice among several bad attributes is unspecified.
- DbClient.DecodeRows: all decoding errors are the one kind `UnmarshalTypeError`. The SDK's messages and
  the unknown-member cases are not distinguished.
- DbTransaction.TransactionPK: Go strings that are not valid UTF-8 are outside the model. Dafny strings are
  sequences of Unicode scalar values, so round trips are stated for those.
- Amount is a `real`. float64 rounding and NaN are not modelled; the source only compares the amount
  with zero.
- Base64 decoding errors carry no offset: `CorruptInputError`'s position is not modelled.
- Json: the writer is Go's before 1.22, which writes `\u0008` and `\u000c` where 1.22 writes `\b` and `\f`.
  The reader reads both forms, so the round trips do not depend on the choice. Key matching is Go's before
  1.21: ASCII case folding plus the Kelvin sign and the long s.
- Json: after a type error `json.Unmarshal` keeps decoding the remaining members and then returns the first
  error. The model stops at the first error; the key is discarded either way.
- Json: the syntax error's offset and message are not modelled; every syntax failure is `SyntaxError`.
- The validator's message text is not modelled. Errors are (field, tag) pairs, one per failing field.
