/**
 * internal/db/transaction.go: the primary key of a transaction and its two
 * encodings (a store attribute map, and the opaque page cursor: base64 of the JSON
 * object), and the transaction record with its write-side defaults and validation.
 */
module DbTransaction {
  import opened Wrappers
  import opened Dynamo
  import opened Utf8
  import Base64
  import Json

  /** The key of the table: partition key user_id, sort key ts. */
  datatype TransactionPK = TransactionPK(userId: string, timestamp: string)

  /** The zero key, Go's TransactionPK{}: the sentinel for "no key" in both encodings. */
  const EmptyPK: TransactionPK := TransactionPK("", "")

  // ---------------------------------------------------------------------------
  // Attribute maps

  /** Whether TransactionPKFromAttributes can read attrs without panicking: nil, or both key attributes strings. */
  predicate HasKeyAttributes(attrs: AttrMap) {
    attrs.Some? ==> "user_id" in attrs.value && attrs.value["user_id"].S? && "ts" in attrs.value && attrs.value["ts"].S?
  }

  /** ToAttributes: nil for the empty key, otherwise the two key attributes as strings. */
  function ToAttributes(pk: TransactionPK): (r: AttrMap)
    ensures r.None? <==> pk == EmptyPK
    ensures HasKeyAttributes(r)
    ensures r.Some? ==> r.value.Keys == {"user_id", "ts"}
  {
    if pk == EmptyPK then None
    else Some(map["user_id" := S(pk.userId), "ts" := S(pk.timestamp)])
  }

  /**
   * TransactionPKFromAttributes: the empty key for nil, otherwise the string values of
   * user_id and ts. Go's type assertions panic when either is missing or not a string;
   * that is this function's precondition.
   */
  function FromAttributes(attrs: AttrMap): TransactionPK
    requires HasKeyAttributes(attrs)
  {
    if attrs.None? then EmptyPK
    else TransactionPK(attrs.value["user_id"].s, attrs.value["ts"].s)
  }

  /** Reading back the attributes of a key gives the key, the empty one included. */
  lemma AttributesRoundTrip(pk: TransactionPK)
    ensures FromAttributes(ToAttributes(pk)) == pk
  {
  }

  /** Conversely, a key map holding exactly the two string attributes, not both empty, is rebuilt as it was. */
  lemma AttributesRebuilt(attrs: AttrMap)
    requires attrs.Some? && HasKeyAttributes(attrs) && attrs.value.Keys == {"user_id", "ts"}
    requires FromAttributes(attrs) != EmptyPK
    ensures ToAttributes(FromAttributes(attrs)) == attrs
  {
    var m := attrs.value;
    var r := ToAttributes(FromAttributes(attrs)).value;
    forall k | k in m
      ensures k in r && r[k] == m[k]
    {
      assert k in m.Keys;
    }
    assert r == m;
  }

  /** The sentinel: nil and the empty key stand for each other. */
  lemma EmptyKeyIsNil()
    ensures ToAttributes(EmptyPK) == None && FromAttributes(None) == EmptyPK
  {
  }

  // ---------------------------------------------------------------------------
  // The cursor: base64 of the JSON of the key

  /** Why a cursor is refused: base64.CorruptInputError, json.SyntaxError, json.UnmarshalTypeError. */
  datatype CodecError = CorruptInput | SyntaxError | TypeMismatch

  /** The members json.Marshal writes for a key: each field with `omitempty`, so only the non-empty ones. */
  function JsonFields(pk: TransactionPK): (fields: seq<(string, string)>)
    ensures |fields| <= 2
    ensures ("user_id", pk.userId) in fields <==> pk.userId != ""
    ensures ("ts", pk.timestamp) in fields <==> pk.timestamp != ""
    ensures fields == [] <==> pk == EmptyPK
    ensures forall f :: f in fields ==> f == ("user_id", pk.userId) || f == ("ts", pk.timestamp)
    ensures |fields| == 2 ==> fields == [("user_id", pk.userId), ("ts", pk.timestamp)]
  {
    (if pk.userId != "" then [("user_id", pk.userId)] else [])
    + (if pk.timestamp != "" then [("ts", pk.timestamp)] else [])
  }

  /** json.Marshal(pk). */
  function MarshalPK(pk: TransactionPK): seq<byte> {
    Json.WriteObject(JsonFields(pk))
  }

  /** json.Unmarshal into a zero TransactionPK: the syntax check, then binding. */
  function UnmarshalPK(b: seq<byte>): Result<TransactionPK, CodecError> {
    match Json.Parse(b)
    case None => Failure(SyntaxError)
    case Some(v) => BindPK(v)
  }

  /**
   * Binding a JSON value to the struct: a top-level null leaves it untouched, an object
   * sets fields member by member, anything else is a type error.
   */
  function BindPK(v: Json.Value): Result<TransactionPK, CodecError> {
    match v
    case Null => Success(EmptyPK)
    case Object(ms) => BindMembers(EmptyPK, ms)
    case _ => Failure(TypeMismatch)
  }

  /** The members in order, so that the last of two keys for the same field wins. */
  function BindMembers(pk: TransactionPK, ms: seq<Json.Member>): Result<TransactionPK, CodecError>
    decreases |ms|
  {
    if ms == [] then Success(pk)
    else
      var next :- BindMember(pk, ms[0]);
      BindMembers(next, ms[1..])
  }

  /**
   * One member: a key that names user_id or ts (case-insensitively) takes a string, and
   * null leaves the field as it is; any other value is a type error. Other keys are ignored.
   */
  function BindMember(pk: TransactionPK, m: Json.Member): Result<TransactionPK, CodecError> {
    if Json.NameMatches(m.key, "user_id") then
      match m.value
      case String(s) => Success(pk.(userId := s))
      case Null => Success(pk)
      case _ => Failure(TypeMismatch)
    else if Json.NameMatches(m.key, "ts") then
      match m.value
      case String(s) => Success(pk.(timestamp := s))
      case Null => Success(pk)
      case _ => Failure(TypeMismatch)
    else Success(pk)
  }

  /**
   * ToBase64: "" for the empty key, otherwise the standard base64 of the JSON. json.Marshal
   * cannot fail on this struct, so the error result of the source is always nil.
   */
  function ToBase64(pk: TransactionPK): (s: string)
    ensures s == "" <==> pk == EmptyPK
    ensures |s| % 4 == 0
    ensures forall i :: 0 <= i < |s| ==> Base64.IsAlphabetChar(s[i]) || s[i] == Base64.PadChar
  {
    if pk == EmptyPK then ""
    else
      Base64.EncodedLength(MarshalPK(pk));
      Base64.Encode(MarshalPK(pk))
  }

  /** TransactionPKFromBase64: "" is the empty key; otherwise base64, then JSON. */
  function FromBase64(s: string): Result<TransactionPK, CodecError> {
    if s == "" then Success(EmptyPK)
    else
      match Base64.Decode(s)
      case None => Failure(CorruptInput)
      case Some(b) => UnmarshalPK(b)
  }

  /** The JSON of every key reads back as that key, with one field, both or neither. */
  lemma MarshalRoundTrip(pk: TransactionPK)
    ensures UnmarshalPK(MarshalPK(pk)) == Success(pk)
  {
    var ms := Json.StringMembers(JsonFields(pk));
    Json.WriteObjectParses(JsonFields(pk));
    UnmarshalObject(MarshalPK(pk), ms);
    BindFieldsRoundTrip(pk);
  }

  /** Unmarshalling bytes that parse as an object binds its members to the zero key. */
  lemma UnmarshalObject(b: seq<byte>, ms: seq<Json.Member>)
    requires Json.Parse(b) == Some(Json.Object(ms))
    ensures UnmarshalPK(b) == BindMembers(EmptyPK, ms)
  {
  }

  /** The two JSON names select their own field and not the other. */
  lemma KeyNamesDistinct()
    ensures Json.NameMatches("user_id", "user_id") && !Json.NameMatches("user_id", "ts")
    ensures !Json.NameMatches("ts", "user_id") && Json.NameMatches("ts", "ts")
  {
    assert !Json.RuneMatches('u', 't');
  }

  /** A user_id member sets the user id; a ts member sets the timestamp. */
  lemma BindOne(pk: TransactionPK, userId: string, timestamp: string)
    ensures BindMembers(pk, [Json.Member("user_id", Json.String(userId))]) == Success(pk.(userId := userId))
    ensures BindMembers(pk, [Json.Member("ts", Json.String(timestamp))]) == Success(pk.(timestamp := timestamp))
  {
    KeyNamesDistinct();
    var u, t := Json.Member("user_id", Json.String(userId)), Json.Member("ts", Json.String(timestamp));
    assert BindMember(pk, u) == Success(pk.(userId := userId));
    assert BindMember(pk, t) == Success(pk.(timestamp := timestamp));
    assert [u][1..] == [] && [t][1..] == [];
  }

  /** Binding the members json.Marshal wrote for a key gives the key. */
  lemma BindFieldsRoundTrip(pk: TransactionPK)
    ensures BindMembers(EmptyPK, Json.StringMembers(JsonFields(pk))) == Success(pk)
  {
    var ms := Json.StringMembers(JsonFields(pk));
    var u, t := Json.Member("user_id", Json.String(pk.userId)), Json.Member("ts", Json.String(pk.timestamp));
    BindOne(EmptyPK, pk.userId, pk.timestamp);
    if pk.userId != "" && pk.timestamp != "" {
      var half := TransactionPK(pk.userId, "");
      BindOne(half, pk.userId, pk.timestamp);
      assert ms == [u, t];
      assert ms[1..] == [t];
      assert BindMember(EmptyPK, u) == Success(half);
    } else if pk.userId != "" {
      assert ms == [u];
    } else if pk.timestamp != "" {
      assert ms == [t];
    } else {
      assert ms == [];
    }
  }

  /** Round trip of the cursor: for every key, decoding the token ToBase64 makes gives the key back without error. */
  lemma CursorRoundTrip(pk: TransactionPK)
    ensures FromBase64(ToBase64(pk)) == Success(pk)
  {
    if pk != EmptyPK {
      Base64.DecodeEncode(MarshalPK(pk));
      MarshalRoundTrip(pk);
    }
  }

  /** The empty key and the empty token stand for each other. */
  lemma EmptyCursor()
    ensures ToBase64(EmptyPK) == "" && FromBase64("") == Success(EmptyPK)
  {
  }

  /**
   * A token holding a character outside the standard alphabet, other than '=' and the
   * newlines base64 skips, is refused; the URL-safe '-' and '_' are such characters.
   */
  lemma ForeignCharRefused(s: string, i: int)
    requires 0 <= i < |s|
    requires !Base64.IsAlphabetChar(s[i]) && s[i] != Base64.PadChar && !Base64.IsNewline(s[i])
    ensures FromBase64(s) == Failure(CorruptInput)
  {
    Base64.ForeignCharRejected(s, i);
  }

  /** A token whose bytes are not JSON is refused as such. */
  lemma BadJsonRefused(b: seq<byte>)
    requires b != [] && Json.Parse(b).None?
    ensures FromBase64(Base64.Encode(b)) == Failure(SyntaxError)
  {
    Base64.DecodeEncode(b);
  }

  /** A token whose JSON is neither an object nor null is refused as a type error. */
  lemma NonObjectRefused(b: seq<byte>)
    requires b != [] && Json.Parse(b).Some?
    requires !Json.Parse(b).value.Object? && !Json.Parse(b).value.Null?
    ensures FromBase64(Base64.Encode(b)) == Failure(TypeMismatch)
  {
    Base64.DecodeEncode(b);
  }

  /** A member naming user_id or ts whose value is neither a string nor null is a type error, whatever the key so far. */
  lemma MismatchedMember(pk: TransactionPK, m: Json.Member)
    requires Json.NameMatches(m.key, "user_id") || Json.NameMatches(m.key, "ts")
    requires !m.value.String? && !m.value.Null?
    ensures BindMember(pk, m) == Failure(TypeMismatch)
  {
  }

  /** Binding stops at the first member that fails, with the type error. */
  lemma {:induction false} BindStopsAtMismatch(pk: TransactionPK, ms: seq<Json.Member>, i: int)
    requires 0 <= i < |ms|
    requires BindMembers(pk, ms[..i]).Success?
    requires BindMember(BindMembers(pk, ms[..i]).value, ms[i]).Failure?
    ensures BindMembers(pk, ms) == Failure(TypeMismatch)
    decreases i
  {
    if i == 0 {
      assert ms[..0] == [];
    } else {
      var front := ms[..i];
      assert front[0] == ms[0] && front[1..] == ms[1..][..i - 1];
      var next := BindMember(pk, ms[0]).value;
      assert BindMembers(next, ms[1..][..i - 1]) == BindMembers(pk, front);
      assert ms[1..][i - 1] == ms[i];
      BindStopsAtMismatch(next, ms[1..], i - 1);
    }
  }

  /**
   * A token whose JSON is an object in which a member naming user_id or ts holds a
   * number, a boolean, an array or an object is refused as a type error, provided the
   * members before it bind.
   */
  lemma FieldTypeMismatchRefused(b: seq<byte>, ms: seq<Json.Member>, i: int)
    requires Json.Parse(b) == Some(Json.Object(ms))
    requires 0 <= i < |ms|
    requires Json.NameMatches(ms[i].key, "user_id") || Json.NameMatches(ms[i].key, "ts")
    requires !ms[i].value.String? && !ms[i].value.Null?
    requires BindMembers(EmptyPK, ms[..i]).Success?
    ensures FromBase64(Base64.Encode(b)) == Failure(TypeMismatch)
  {
    MismatchedMember(BindMembers(EmptyPK, ms[..i]).value, ms[i]);
    BindStopsAtMismatch(EmptyPK, ms, i);
    UnmarshalObject(b, ms);
    Base64.DecodeEncode(b);
  }

  // ---------------------------------------------------------------------------
  // Transactions

  /** A transaction record. Amount is a float64 in the source and is only compared with zero. */
  datatype Transaction = Transaction(
    userId: string,
    timestamp: string,
    id: string,
    origin: string,
    operationType: string,
    amount: real)

  /**
   * What SetDefaults makes of t: an empty ID becomes newId (uuid.New().String()) and an
   * empty Timestamp becomes now (Timestamp(), the clock); both are inputs here.
   */
  function WithDefaults(t: Transaction, newId: string, now: string): Transaction {
    t.(id := if t.id == "" then newId else t.id,
       timestamp := if t.timestamp == "" then now else t.timestamp)
  }

  /** Only an empty ID or Timestamp is filled; every other field, and a non-empty ID or Timestamp, is kept. */
  lemma DefaultsFillOnlyEmpty(t: Transaction, newId: string, now: string)
    ensures var r := WithDefaults(t, newId, now);
      r.userId == t.userId && r.origin == t.origin && r.operationType == t.operationType && r.amount == t.amount
      && (t.id != "" ==> r.id == t.id) && (t.id == "" ==> r.id == newId)
      && (t.timestamp != "" ==> r.timestamp == t.timestamp) && (t.timestamp == "" ==> r.timestamp == now)
  {
  }

  /** With non-empty generated values, applying the defaults twice is applying them once, whatever the second values. */
  lemma DefaultsIdempotent(t: Transaction, newId: string, now: string, newId2: string, now2: string)
    requires newId != "" && now != ""
    ensures WithDefaults(WithDefaults(t, newId, now), newId2, now2) == WithDefaults(t, newId, now)
  {
  }

  /** A *Transaction: the record SetDefaults and Create update in place. */
  class TransactionRecord {
    var userId: string
    var timestamp: string
    var id: string
    var origin: string
    var operationType: string
    var amount: real

    constructor (t: Transaction)
      ensures Value() == t
    {
      userId, timestamp, id, origin, operationType, amount :=
        t.userId, t.timestamp, t.id, t.origin, t.operationType, t.amount;
    }

    /** The record's current value. */
    function Value(): Transaction
      reads this
    {
      Transaction(userId, timestamp, id, origin, operationType, amount)
    }

    /** SetDefaults: fills an empty ID and an empty Timestamp in place. */
    method SetDefaults(newId: string, now: string)
      modifies this
      ensures Value() == WithDefaults(old(Value()), newId, now)
    {
      if id == "" {
        id := newId;
      }
      if timestamp == "" {
        timestamp := now;
      }
    }
  }

  // ---------------------------------------------------------------------------
  // Validation

  /** The Go field names validator reports: those of Transaction, and the two required ones of UserListRequest. */
  datatype Field = UserID | Timestamp | ID | Origin | OperationType | Amount | TimestampPrefix

  /** The validation tags that can fail. */
  datatype Tag = Required | Gte

  /** A validation failure: the field and the tag that failed (validator's FieldError). */
  datatype FieldError = FieldError(field: Field, tag: Tag)

  /** The `required` tag on a string field: it must not be empty. */
  function RequireNonEmpty(field: Field, value: string): (errs: seq<FieldError>)
    ensures errs == [] <==> value != ""
    ensures errs != [] ==> errs == [FieldError(field, Required)]
    ensures forall e :: e in errs ==> e == FieldError(field, Required)
  {
    if value == "" then [FieldError(field, Required)] else []
  }

  /** The tags `required,gte=0` on Amount: zero fails `required`, which is checked first; a negative amount fails `gte`. */
  function AmountErrors(amount: real): (errs: seq<FieldError>)
    ensures errs == [] <==> amount > 0.0
    ensures |errs| <= 1
    ensures forall e :: e in errs ==> e.field == Amount
  {
    if amount == 0.0 then [FieldError(Amount, Required)]
    else if amount < 0.0 then [FieldError(Amount, Gte)]
    else []
  }

  /** The position of a field of Transaction in declaration order. */
  function FieldRank(field: Field): nat {
    match field
    case UserID => 0
    case Timestamp => 1
    case ID => 2
    case Origin => 3
    case OperationType => 4
    case Amount => 5
    case TimestampPrefix => 6
  }

  /**
   * Validate: validator.Struct(tr), one error per failing field (the first failing tag),
   * in declaration order; the empty list is a nil error.
   */
  function Validate(t: Transaction): (errs: seq<FieldError>)
    ensures errs == [] <==>
      t.userId != "" && t.timestamp != "" && t.id != "" && t.origin != "" && t.operationType != "" && t.amount > 0.0
  {
    RequireNonEmpty(UserID, t.userId) + RequireNonEmpty(Timestamp, t.timestamp) + RequireNonEmpty(ID, t.id)
    + RequireNonEmpty(Origin, t.origin) + RequireNonEmpty(OperationType, t.operationType) + AmountErrors(t.amount)
  }

  /** Whether t fails the check whose failure is reported as e. */
  predicate FailsCheck(t: Transaction, e: FieldError) {
    match e.field
    case UserID => e.tag == Required && t.userId == ""
    case Timestamp => e.tag == Required && t.timestamp == ""
    case ID => e.tag == Required && t.id == ""
    case Origin => e.tag == Required && t.origin == ""
    case OperationType => e.tag == Required && t.operationType == ""
    case Amount => (e.tag == Required && t.amount == 0.0) || (e.tag == Gte && t.amount < 0.0)
    case TimestampPrefix => false
  }

  /** Validate reports an error exactly when the record fails the check behind it: every failing field, and no other. */
  lemma ValidateReportsFailingFields(t: Transaction, e: FieldError)
    ensures e in Validate(t) <==> FailsCheck(t, e)
  {
    var groups := [RequireNonEmpty(UserID, t.userId), RequireNonEmpty(Timestamp, t.timestamp),
      RequireNonEmpty(ID, t.id), RequireNonEmpty(Origin, t.origin), RequireNonEmpty(OperationType, t.operationType)];
    assert Validate(t) == groups[0] + groups[1] + groups[2] + groups[3] + groups[4] + AmountErrors(t.amount);
  }

  /** Errors whose fields strictly increase in declaration order. */
  predicate InFieldOrder(errs: seq<FieldError>) {
    forall i, j :: 0 <= i < j < |errs| ==> FieldRank(errs[i].field) < FieldRank(errs[j].field)
  }

  /** Two ordered lists, every field of the first before every field of the second, are ordered together. */
  lemma OrderedAppend(a: seq<FieldError>, b: seq<FieldError>)
    requires InFieldOrder(a) && InFieldOrder(b)
    requires forall x, y :: x in a && y in b ==> FieldRank(x.field) < FieldRank(y.field)
    ensures InFieldOrder(a + b)
  {
    var c := a + b;
    forall i, j | 0 <= i < j < |c|
      ensures FieldRank(c[i].field) < FieldRank(c[j].field)
    {
      if j >= |a| && i < |a| {
        assert c[i] in a && c[j] in b;
      } else if j >= |a| {
        assert c[i] == b[i - |a|] && c[j] == b[j - |a|];
      }
    }
  }

  /** Six groups of at most one error each, the k-th about the field of rank k, are in field order once concatenated. */
  lemma OrderedGroups(g0: seq<FieldError>, g1: seq<FieldError>, g2: seq<FieldError>,
                      g3: seq<FieldError>, g4: seq<FieldError>, g5: seq<FieldError>)
    requires |g0| <= 1 && |g1| <= 1 && |g2| <= 1 && |g3| <= 1 && |g4| <= 1 && |g5| <= 1
    requires forall e :: e in g0 ==> FieldRank(e.field) == 0
    requires forall e :: e in g1 ==> FieldRank(e.field) == 1
    requires forall e :: e in g2 ==> FieldRank(e.field) == 2
    requires forall e :: e in g3 ==> FieldRank(e.field) == 3
    requires forall e :: e in g4 ==> FieldRank(e.field) == 4
    requires forall e :: e in g5 ==> FieldRank(e.field) == 5
    ensures InFieldOrder(g0 + g1 + g2 + g3 + g4 + g5)
    ensures forall e :: e in g0 + g1 + g2 + g3 + g4 + g5 ==> FieldRank(e.field) < 6
  {
    OrderedAppend(g0, g1);
    OrderedAppend(g0 + g1, g2);
    OrderedAppend(g0 + g1 + g2, g3);
    OrderedAppend(g0 + g1 + g2 + g3, g4);
    OrderedAppend(g0 + g1 + g2 + g3 + g4, g5);
  }

  /** The errors come one per field, in declaration order. */
  lemma ValidateInFieldOrder(t: Transaction)
    ensures var errs := Validate(t);
      forall i, j :: 0 <= i < j < |errs| ==> FieldRank(errs[i].field) < FieldRank(errs[j].field) < 6
  {
    OrderedGroups(RequireNonEmpty(UserID, t.userId), RequireNonEmpty(Timestamp, t.timestamp), RequireNonEmpty(ID, t.id),
      RequireNonEmpty(Origin, t.origin), RequireNonEmpty(OperationType, t.operationType), AmountErrors(t.amount));
    var errs := Validate(t);
    forall j | 0 <= j < |errs|
      ensures FieldRank(errs[j].field) < 6
    {
      assert errs[j] in errs;
    }
  }

  /**
   * A record without an amount, whose ID and timestamp are left to the defaults, fails on
   * Amount's `required` tag alone.
   */
  lemma MissingAmountRejected(newId: string, now: string)
    requires newId != "" && now != ""
    ensures Validate(WithDefaults(Transaction("john", "", "", "web", "credit", 0.0), newId, now))
      == [FieldError(Amount, Required)]
  {
  }

  /** The empty record, after the defaults, fails on the four fields the defaults do not fill. */
  lemma EmptyRecordRejected(newId: string, now: string)
    requires newId != "" && now != ""
    ensures Validate(WithDefaults(Transaction("", "", "", "", "", 0.0), newId, now)) == [
      FieldError(UserID, Required), FieldError(Origin, Required),
      FieldError(OperationType, Required), FieldError(Amount, Required)]
  {
  }
}
