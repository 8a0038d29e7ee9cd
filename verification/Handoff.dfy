/** From the assistant's tool call to the agent's screen (lambda/common/bridgefu_handoff.py:
    `prepare_handoff`, `connect_lookup`; lambda/common/aws_runtime.py: encoding, projection, decoding). */
module Handoff {
  import opened Wrappers
  import opened DynamoValue
  import opened HandoffRow
  import opened ScreenPop
  import Json
  import Decimal

  const CORRELATION := "correlation_id"
  const SCHEMA_HASH := "screen_pop_schema_hash"
  const CREATED := "created_at"

  type Record = map<string, Value>

  /** The attributes `DynamoHandoffStore.get` reads. */
  const PROJECTED: set<string> := {
    SCHEMA, CORRELATION, "customer_name", "issue_summary", "intent", "verification_status", REFERENCE, CALL_PRINT,
    CONTENT, CREATED, UPDATED, EXPIRES, STATUS, CALL, ATTACHMENT, VALUES, SCHEMA_HASH, TOKEN, LEG, ROUTE, IDEMPOTENCY}

  const DISPLAY_FIELDS := ["customer_name", "issue_summary", "intent", "verification_status"]

  function StrMap(m: map<string, string>): Record {
    map k | k in m :: Value.Str(m[k])
  }

  /** What the protocol writes beside the values of one call. */
  datatype Facts = Facts(correlation: string, reference: string, schemaHash: string, callPrint: string, content: string,
                         now: int, expires: int)

  /** The hashes in `x` are those of this configuration and these values. */
  predicate FactsFor(sha: string -> string, hash: ContentHash, fields: seq<Field>, values: map<string, string>,
                     x: Facts) {
    x.schemaHash == SchemaHash(sha, fields) && x.content == hash(values[REFERENCE := x.reference])
  }

  function Base(x: Facts): Record {
    map[SCHEMA := Value.Int(2), CORRELATION := Value.Str(x.correlation)]
  }

  function Flat(values: map<string, string>, x: Facts): Record {
    StrMap(values[REFERENCE := x.reference])
  }

  function Nested(values: map<string, string>, x: Facts): Record {
    map[VALUES := Value.Map(StrMap(values)), SCHEMA_HASH := Value.Str(x.schemaHash)]
  }

  function Tail(x: Facts): Record {
    map[CALL_PRINT := Value.Str(x.callPrint), CONTENT := Value.Str(x.content), CREATED := Value.Int(x.now),
        UPDATED := Value.Int(x.now), EXPIRES := Value.Int(x.expires), STATUS := Value.Str("PREPARED")]
  }

  /** The row a configured `prepare_handoff` writes: Python merges the dictionaries left to right. */
  function HandoffRecord(values: map<string, string>, x: Facts): Record {
    Base(x) + Flat(values, x) + Nested(values, x) + Tail(x)
  }

  predicate Encodable(record: Record) {
    forall k :: k in record ==> Encode(record[k], 0).Ok?
  }

  function EncodeItem(record: Record): Item
    requires Encodable(record)
  {
    map k | k in record :: Encode(record[k], 0).value
  }

  function Project(item: Item): Item {
    map k | k in item && k in PROJECTED :: item[k]
  }

  predicate Decodable(item: Item) {
    forall k :: k in item ==> Decode(item[k], 0).Ok?
  }

  /** `_decode_item`; None stands for the store error it raises. */
  function DecodeItem(item: Item): Option<Record> {
    if Decodable(item) then Some(map k | k in item :: Decode(item[k], 0).value) else None
  }

  // Lookup

  datatype Screen = Screen(available: bool, reference: string, routingValue: string, rows: map<string, string>)

  function Unavailable(fields: seq<Field>): Screen {
    Screen(false, "", "", RowsUpTo(fields, None, MAX_FIELDS))
  }

  function ToJson(v: Value): Json.Json
    decreases v
  {
    match v
    case Str(s) => Json.Str(s)
    case Int(n) => Json.Num(n)
    case Map(_) => Json.Obj([])
  }

  function RawOf(m: Record): map<string, Json.Json> {
    map k | k in m :: ToJson(m[k])
  }

  function FindField(fields: seq<Field>, key: string): Option<Field> {
    if fields == [] then None else if fields[0].key == key then Some(fields[0]) else FindField(fields[1..], key)
  }

  predicate Live(record: Record, now: int) {
    && EXPIRES in record && record[EXPIRES].Int? && record[EXPIRES].n > now
    && STATUS in record && record[STATUS] in {Value.Str("PREPARED"), Value.Str("RESERVED"), Value.Str("CONSUMED")}
  }

  predicate IsCurrentSchema(sha: string -> string, record: Record, fields: seq<Field>) {
    && SCHEMA in record && record[SCHEMA] == Value.Int(2)
    && SCHEMA_HASH in record && record[SCHEMA_HASH] == Value.Str(SchemaHash(sha, fields))
    && VALUES in record && record[VALUES].Map?
  }

  /** The four fields of the first schema version, whose rows hold the values flat only. */
  predicate DisplaysOnly(fields: seq<Field>) {
    |fields| == 4 && forall i :: 0 <= i < 4 ==> fields[i].key == DISPLAY_FIELDS[i]
  }

  function FlatRaw(record: Record): map<string, Json.Json> {
    map k | k in DISPLAY_FIELDS :: if k in record then ToJson(record[k]) else Json.Str("")
  }

  /** `connect_lookup` with configured fields, on the decoded row. */
  function Lookup(sha: string -> string, row: Option<Record>, now: int, fields: seq<Field>,
                  routingKey: string): Screen {
    if row.None? || !Live(row.value, now) then Unavailable(fields)
    else
      var record := row.value;
      var current := IsCurrentSchema(sha, record, fields);
      if !current && !DisplaysOnly(fields) then
        Unavailable(fields)
      else
        var raw := if current then RawOf(record[VALUES].m) else FlatRaw(record);
        var reference := if REFERENCE in record then record[REFERENCE] else Value.Str("");
        var routing := FindField(fields, routingKey);
        if Validate(raw, fields).Err? then Unavailable(fields)
        else if !reference.Str? || Json.Utf8Length(reference.s) > 128 then Unavailable(fields)
        else if routingKey != "" && (!current || routing.None? || !routing.value.choice) then Unavailable(fields)
        else
          var validated := Validate(raw, fields).value;
          Screen(true, reference.s, if routingKey != "" && routingKey in validated then validated[routingKey] else "",
                 RowsUpTo(fields, Some(validated), MAX_FIELDS))
  }

  /** The read of the row: projection, then decoding. A decoding error is an exception of the lookup, which its
      entry point turns into an unavailable screen. */
  function ReadAndLookup(sha: string -> string, row: Row, now: int, fields: seq<Field>, routingKey: string): Screen {
    if row.None? then Lookup(sha, None, now, fields, routingKey)
    else
      match DecodeItem(Project(row.value))
      case None => Unavailable(fields)
      case Some(record) => Lookup(sha, Some(record), now, fields, routingKey)
  }

  // Field keys and protocol attributes

  /** What `parse_fields` guarantees about the keys of a configuration. */
  predicate KeysParsed(fields: seq<Field>) {
    && 1 <= |fields| <= MAX_FIELDS
    && forall f :: f in fields ==> IsKey(f.key) && f.key !in RESERVED_KEYS
  }

  lemma ItemKey(item: Json.Json)
    requires ParseItem(item).Ok?
    ensures IsKey(ParseItem(item).value.key) && ParseItem(item).value.key !in RESERVED_KEYS
  {
    hide IsPlainText, RESERVED_KEYS, IsKey;
  }

  lemma ParsedKeys(decoded: Json.Json, fold: string -> string)
    requires Acceptable(decoded, fold)
    ensures KeysParsed(Parsed(decoded.items))
  {
    hide ParseItem, IsKey, RESERVED_KEYS;
    var fields := Parsed(decoded.items);
    forall f | f in fields ensures IsKey(f.key) && f.key !in RESERVED_KEYS {
      var i :| 0 <= i < |fields| && fields[i] == f;
      ItemKey(decoded.items[i]);
    }
  }

  /** The names of the attributes are different, by length or by first letter. */
  lemma NamesDiffer()
    ensures SCHEMA !in {VALUES, SCHEMA_HASH, CALL_PRINT, CONTENT, CREATED, UPDATED, EXPIRES, STATUS, REFERENCE,
                        CORRELATION}
    ensures CORRELATION !in {VALUES, SCHEMA_HASH, CALL_PRINT, CONTENT, CREATED, UPDATED, EXPIRES, STATUS, REFERENCE}
    ensures REFERENCE !in {VALUES, SCHEMA_HASH, CALL_PRINT, CONTENT, CREATED, UPDATED, EXPIRES, STATUS}
    ensures VALUES !in {SCHEMA_HASH, CALL_PRINT, CONTENT, CREATED, UPDATED, EXPIRES, STATUS}
    ensures SCHEMA_HASH !in {CALL_PRINT, CONTENT, CREATED, UPDATED, EXPIRES, STATUS}
    ensures CALL_PRINT !in {CONTENT, CREATED, UPDATED, EXPIRES, STATUS}
    ensures CONTENT !in {CREATED, UPDATED, EXPIRES, STATUS}
    ensures CREATED !in {UPDATED, EXPIRES, STATUS} && UPDATED !in {EXPIRES, STATUS} && EXPIRES != STATUS
    ensures {CALL, ATTACHMENT} !! {SCHEMA, CORRELATION, REFERENCE, VALUES, SCHEMA_HASH, CALL_PRINT, CONTENT, CREATED,
                                   UPDATED, EXPIRES, STATUS}
  {
    assert |SCHEMA| == 14 && |CORRELATION| == 14 && |STATUS| == 14;
    assert |REFERENCE| == 19 && |VALUES| == 17 && |SCHEMA_HASH| == 22 && |CALL_PRINT| == 21 && |CONTENT| == 12;
    assert |CREATED| == 10 && |UPDATED| == 10 && |EXPIRES| == 10 && |CALL| == 16 && |ATTACHMENT| == 21;
    assert SCHEMA[0] == 's' && CORRELATION[0] == 'c' && STATUS[0] == 'h';
    assert CREATED[0] == 'c' && UPDATED[0] == 'u' && EXPIRES[0] == 'e';
    assert CALL_PRINT[0] == 'v' && ATTACHMENT[0] == 'a';
  }

  /** The values of one call, as validated against a configuration. */
  predicate ValuesFor(fields: seq<Field>, values: map<string, string>) {
    KeysParsed(fields) && values.Keys == KeySet(fields)
  }

  lemma ReservedAreNotValues(fields: seq<Field>, values: map<string, string>, k: string)
    requires ValuesFor(fields, values) && k in RESERVED_KEYS
    ensures k !in values
  {
    assert forall f :: f in fields ==> f.key != k;
  }

  lemma SixKeys(a: string, b: string, c: string, d: string, e: string, f: string, m: Record, va: Value, vb: Value,
                vc: Value, vd: Value, ve: Value, vf: Value)
    requires a !in {b, c, d, e, f} && b !in {c, d, e, f} && c !in {d, e, f} && d !in {e, f} && e != f
    requires m == map[a := va, b := vb, c := vc, d := vd, e := ve, f := vf]
    ensures m.Keys == {a, b, c, d, e, f}
    ensures m[a] == va && m[b] == vb && m[c] == vc && m[d] == vd && m[e] == ve && m[f] == vf
  {
  }

  lemma TailAttributes(x: Facts)
    ensures Tail(x).Keys == {CALL_PRINT, CONTENT, CREATED, UPDATED, EXPIRES, STATUS}
    ensures var r := Tail(x);
            && r[CALL_PRINT] == Value.Str(x.callPrint) && r[CONTENT] == Value.Str(x.content)
            && r[CREATED] == Value.Int(x.now) && r[UPDATED] == Value.Int(x.now)
            && r[EXPIRES] == Value.Int(x.expires) && r[STATUS] == Value.Str("PREPARED")
  {
    NamesDiffer();
    SixKeys(CALL_PRINT, CONTENT, CREATED, UPDATED, EXPIRES, STATUS, Tail(x), Value.Str(x.callPrint),
            Value.Str(x.content), Value.Int(x.now), Value.Int(x.now), Value.Int(x.expires), Value.Str("PREPARED"));
  }

  lemma HeadAttributes(values: map<string, string>, x: Facts)
    ensures Base(x).Keys == {SCHEMA, CORRELATION}
    ensures Base(x)[SCHEMA] == Value.Int(2) && Base(x)[CORRELATION] == Value.Str(x.correlation)
    ensures Flat(values, x).Keys == values.Keys + {REFERENCE} && Flat(values, x)[REFERENCE] == Value.Str(x.reference)
    ensures Nested(values, x).Keys == {VALUES, SCHEMA_HASH}
    ensures Nested(values, x)[VALUES] == Value.Map(StrMap(values))
    ensures Nested(values, x)[SCHEMA_HASH] == Value.Str(x.schemaHash)
  {
    NamesDiffer();
  }

  lemma Layers(a: Record, b: Record, c: Record, d: Record, k: string)
    ensures var r := a + b + c + d;
            && (k in r <==> k in a || k in b || k in c || k in d)
            && (k in r ==> r[k] == if k in d then d[k] else if k in c then c[k] else if k in b then b[k] else a[k])
  {
  }

  predicate HasAttribute(r: Record, k: string, v: Value) {
    k in r && r[k] == v
  }

  /** No configured field can overwrite an attribute the preparation, the lookup or a transfer reads, whatever
      its key: the reserved keys are refused, and the nested values and their schema hash are written after the
      flat copies. The four direct_ attributes are not among these: a field may be called direct_token_id. That
      does no harm, because no direct preparation is ever accepted on a prepared row (`NotAccepted`). */
  lemma ProtocolAttributes(fields: seq<Field>, values: map<string, string>, x: Facts)
    requires ValuesFor(fields, values)
    ensures
      var r := HandoffRecord(values, x);
      && HasAttribute(r, SCHEMA, Value.Int(2)) && HasAttribute(r, CORRELATION, Value.Str(x.correlation))
      && HasAttribute(r, REFERENCE, Value.Str(x.reference)) && HasAttribute(r, VALUES, Value.Map(StrMap(values)))
      && HasAttribute(r, SCHEMA_HASH, Value.Str(x.schemaHash)) && HasAttribute(r, CALL_PRINT, Value.Str(x.callPrint))
      && HasAttribute(r, CONTENT, Value.Str(x.content)) && HasAttribute(r, CREATED, Value.Int(x.now))
      && HasAttribute(r, UPDATED, Value.Int(x.now)) && HasAttribute(r, EXPIRES, Value.Int(x.expires))
      && HasAttribute(r, STATUS, Value.Str("PREPARED")) && CALL !in r && ATTACHMENT !in r
  {
    hide Base, Flat, Nested, Tail, KeysParsed, ValuesFor, RESERVED_KEYS;
    ReservedNames();
    ReservedAreNotValues(fields, values, SCHEMA);
    ReservedAreNotValues(fields, values, CORRELATION);
    ReservedAreNotValues(fields, values, REFERENCE);
    ReservedAreNotValues(fields, values, CALL);
    ReservedAreNotValues(fields, values, ATTACHMENT);
    NamesDiffer();
    HeadAttributes(values, x);
    TailAttributes(x);
    hide SCHEMA, CORRELATION, REFERENCE, CALL, ATTACHMENT, VALUES, SCHEMA_HASH, CALL_PRINT, CONTENT, CREATED, UPDATED,
         EXPIRES, STATUS;
    InTail(values, x, CALL_PRINT, Value.Str(x.callPrint));
    InTail(values, x, CONTENT, Value.Str(x.content));
    InTail(values, x, CREATED, Value.Int(x.now));
    InTail(values, x, UPDATED, Value.Int(x.now));
    InTail(values, x, EXPIRES, Value.Int(x.expires));
    InTail(values, x, STATUS, Value.Str("PREPARED"));
    Layers(Base(x), Flat(values, x), Nested(values, x), Tail(x), SCHEMA);
    Layers(Base(x), Flat(values, x), Nested(values, x), Tail(x), CORRELATION);
    Layers(Base(x), Flat(values, x), Nested(values, x), Tail(x), REFERENCE);
    Layers(Base(x), Flat(values, x), Nested(values, x), Tail(x), VALUES);
    Layers(Base(x), Flat(values, x), Nested(values, x), Tail(x), SCHEMA_HASH);
    Layers(Base(x), Flat(values, x), Nested(values, x), Tail(x), CALL);
    Layers(Base(x), Flat(values, x), Nested(values, x), Tail(x), ATTACHMENT);
  }

  lemma ReservedNames()
    ensures SCHEMA in RESERVED_KEYS && CORRELATION in RESERVED_KEYS && REFERENCE in RESERVED_KEYS
            && CALL in RESERVED_KEYS
    ensures ATTACHMENT in RESERVED_KEYS
  {
  }

  lemma InTail(values: map<string, string>, x: Facts, k: string, v: Value)
    requires HasAttribute(Tail(x), k, v)
    ensures HasAttribute(HandoffRecord(values, x), k, v)
  {
    hide Base, Flat, Nested, Tail;
    Layers(Base(x), Flat(values, x), Nested(values, x), Tail(x), k);
  }

  lemma NestedEncodes(fields: seq<Field>, values: map<string, string>)
    requires ValuesFor(fields, values)
    ensures Encode(Value.Map(StrMap(values)), 0) == Ok(ValuesAttr(values))
  {
    var m := StrMap(values);
    assert fields[0].key in m;
    forall k | k in m ensures k != "" {
      var f :| f in fields && f.key == k;
    }
    assert forall k :: k in m ==> Encode(m[k], 1) == Ok(S(values[k]));
    var encoded := map k | k in m :: Encode(m[k], 1).value;
    assert encoded == map k | k in values :: S(values[k]);
    assert Encode(Value.Map(m), 0) == Ok(M(encoded));
  }

  predicate Plain(v: Value, values: map<string, string>) {
    v.Str? || v.Int? || v == Value.Map(StrMap(values))
  }

  lemma RecordIsPlain(values: map<string, string>, x: Facts, k: string)
    requires k in HandoffRecord(values, x)
    ensures Plain(HandoffRecord(values, x)[k], values)
  {
    Layers(Base(x), Flat(values, x), Nested(values, x), Tail(x), k);
  }

  lemma RecordEncodes(fields: seq<Field>, values: map<string, string>, x: Facts)
    requires ValuesFor(fields, values)
    ensures Encodable(HandoffRecord(values, x))
  {
    NestedEncodes(fields, values);
    var r := HandoffRecord(values, x);
    hide HandoffRecord;
    forall k | k in r ensures Encode(r[k], 0).Ok? {
      RecordIsPlain(values, x, k);
    }
  }

  // From the prepared row to the screen

  lemma EncodedItem(fields: seq<Field>, values: map<string, string>, x: Facts)
    requires ValuesFor(fields, values)
    ensures
      var r := HandoffRecord(values, x);
      && Encodable(r) && Decodable(EncodeItem(r))
      && forall k :: k in r ==> k in EncodeItem(r) && Decode(EncodeItem(r)[k], 0) == Ok(r[k])
  {
    RecordEncodes(fields, values, x);
    var r := HandoffRecord(values, x);
    hide HandoffRecord;
    forall k | k in r ensures Decode(EncodeItem(r)[k], 0) == Ok(r[k]) {
      DecodeEncode(r[k], 0);
    }
  }

  /** The wire form of a prepared row: what it holds, and that its content hash covers a call reference. */
  ghost predicate PreparedRow(hash: ContentHash, item: Item) {
    && StatusIn(item, {PREPARED, RESERVED}) && Decodable(item)
    && CONTENT in item && exists f: map<string, string> :: REFERENCE in f && item[CONTENT] == S(hash(f))
  }

  /** What no write changes on such a row. */
  predicate Kept(k: string) {
    Fixed(k) || k == VALUES || k == CONTENT
  }

  lemma StepKeepsPrepared(hash: ContentHash, item: Item, e: Event)
    requires Injective(hash) && PreparedRow(hash, item) && e != Expire
    requires e.PrepareDirect? ==> REFERENCE !in e.values
    ensures !(e.PrepareDirect? && Accepts(hash, Some(item), e))
    ensures Step(hash, Some(item), e).Some? && PreparedRow(hash, Step(hash, Some(item), e).value)
    ensures forall k :: k in item && Kept(k) ==>
              k in Step(hash, Some(item), e).value && Step(hash, Some(item), e).value[k] == item[k]
  {
    NotAccepted(hash, item, e);
    NamesDiffer();
    match e
    case MarkReserved(now, callId, attachment) =>
      NumDecodes(now);
      NumDecodes(attachment);
      StaysDecodable(item, STATUS, RESERVED);
      StaysDecodable(item[STATUS := RESERVED], UPDATED, Num(now));
      StaysDecodable(item[STATUS := RESERVED][UPDATED := Num(now)], CALL, S(callId));
      StaysDecodable(item[STATUS := RESERVED][UPDATED := Num(now)][CALL := S(callId)], ATTACHMENT, Num(attachment));
      hide Decodable, Decode, Num;
    case MarkStarted(at) =>
      NumDecodes(at);
      StaysDecodable(item, STATUS, RESERVED);
      StaysDecodable(item[STATUS := RESERVED], UPDATED, Num(at));
      hide Decodable, Decode, Num;
    case _ =>
  }

  lemma NotAccepted(hash: ContentHash, item: Item, e: Event)
    requires Injective(hash) && PreparedRow(hash, item) && (e.PrepareDirect? ==> REFERENCE !in e.values)
    ensures !(e.PrepareDirect? && Accepts(hash, Some(item), e))
  {
    var f: map<string, string> :| REFERENCE in f && item[CONTENT] == S(hash(f));
  }

  lemma NumDecodes(n: int)
    ensures Decode(Num(n), 0).Ok?
  {
    Decimal.ParseOf(n);
  }

  lemma StaysDecodable(item: Item, k: string, a: Attr)
    requires Decodable(item) && Decode(a, 0).Ok?
    ensures Decodable(item[k := a])
  {
    hide Decode;
  }

  lemma {:induction false} PreparedRuns(hash: ContentHash, item: Item, events: seq<Event>)
    requires Injective(hash) && PreparedRow(hash, item) && NoExpiry(events) && Lawful(events)
    ensures Run(hash, Some(item), events).Some? && PreparedRow(hash, Run(hash, Some(item), events).value)
    ensures forall k :: k in item && Kept(k) ==>
              k in Run(hash, Some(item), events).value && Run(hash, Some(item), events).value[k] == item[k]
    decreases |events|
  {
    if events != [] {
      assert events[0] != Expire && events[0] == events[0];
      StepKeepsPrepared(hash, item, events[0]);
      PreparedRuns(hash, Step(hash, Some(item), events[0]).value, events[1..]);
    }
  }

  /** The row of a telephone call never goes back, and once reserved stays reserved, until it is deleted. */
  lemma {:induction false} PreparedNeverFalls(hash: ContentHash, item: Item, events: seq<Event>)
    requires Injective(hash) && PreparedRow(hash, item) && NoExpiry(events) && Lawful(events)
    ensures
      var end := Run(hash, Some(item), events);
      && end.Some? && Rank(end.value) >= Rank(item) && (StatusIn(item, {RESERVED}) ==> StatusIn(end.value, {RESERVED}))
    decreases |events|
  {
    hide Injective, Decodable, Rank;
    if events != [] {
      assert events[0] != Expire && events[0] == events[0];
      StepKeepsPrepared(hash, item, events[0]);
      StatusFallsIff(hash, item, events[0]);
      PreparedNeverFalls(hash, Step(hash, Some(item), events[0]).value, events[1..]);
    }
    RankOfReserved(item);
    RankOfReserved(Run(hash, Some(item), events).value);
  }

  lemma RankOfReserved(item: Item)
    ensures Rank(item) <= 2 && (StatusIn(item, {RESERVED}) <==> Rank(item) == 2)
  {
    StatusesDiffer();
  }

  lemma RawOfIsAsJson(values: map<string, string>)
    ensures RawOf(StrMap(values)) == AsJson(values)
  {
  }

  /** A decoded row with the attributes of a prepared one. */
  predicate Readable(record: Record, sha: string -> string, fields: seq<Field>, values: map<string, string>, x: Facts) {
    && HasAttribute(record, SCHEMA, Value.Int(2)) && HasAttribute(record, REFERENCE, Value.Str(x.reference))
    && HasAttribute(record, VALUES, Value.Map(StrMap(values)))
    && HasAttribute(record, SCHEMA_HASH, Value.Str(SchemaHash(sha, fields)))
    && HasAttribute(record, EXPIRES, Value.Int(x.expires))
    && (HasAttribute(record, STATUS, Value.Str("PREPARED")) || HasAttribute(record, STATUS, Value.Str("RESERVED")))
  }

  /** The value that picks the agents' queue: of a choice field, or none. */
  predicate RoutingKey(fields: seq<Field>, key: string) {
    key == "" || (FindField(fields, key).Some? && FindField(fields, key).value.choice)
  }

  function RoutingValue(values: map<string, string>, key: string): string {
    if key != "" && key in values then values[key] else ""
  }

  lemma LookupReadable(sha: string -> string, record: Record, now: int, fields: seq<Field>, raw: map<string, Json.Json>,
                       values: map<string, string>, x: Facts, routingKey: string)
    requires Validate(raw, fields) == Ok(values) && Readable(record, sha, fields, values, x)
    requires RoutingKey(fields, routingKey) && Json.Utf8Length(x.reference) <= 128
    ensures Lookup(sha, Some(record), now, fields, routingKey)
         == if now < x.expires
             then Screen(true, x.reference, RoutingValue(values, routingKey),
                         RowsUpTo(fields, Some(values), MAX_FIELDS))
            else Unavailable(fields)
  {
    hide Validate, RowsUpTo, FindField, Json.Utf8Length;
    RawOfIsAsJson(values);
    ValidateIsIdempotent(raw, fields);
  }

  /** The row created by a successful configured preparation, after any writes of any invocations, shows the
      agent exactly the validated values in field order, with the routing value and the call reference, until
      it expires; from then on it shows nothing. */
  lemma PrepareToScreen(sha: string -> string, hash: ContentHash, decoded: Json.Json, fold: string -> string,
                        raw: map<string, Json.Json>, values: map<string, string>, x: Facts, events: seq<Event>,
                        now: int,
                        routingKey: string)
    requires Acceptable(decoded, fold)
    requires Validate(raw, Parsed(decoded.items)) == Ok(values) && FactsFor(sha, hash, Parsed(decoded.items), values, x)
    requires Injective(hash) && NoExpiry(events) && Lawful(events)
    requires RoutingKey(Parsed(decoded.items), routingKey) && Json.Utf8Length(x.reference) <= 128
    ensures Encodable(HandoffRecord(values, x))
    ensures
      var fields := Parsed(decoded.items);
      var row := Run(hash, None, [Create(EncodeItem(HandoffRecord(values, x)))] + events);
      ReadAndLookup(sha, row, now, fields, routingKey)
      == if now < x.expires
          then Screen(true, x.reference, RoutingValue(values, routingKey), RowsUpTo(fields, Some(values), MAX_FIELDS))
         else Unavailable(fields)
  {
    var fields := Parsed(decoded.items);
    ParsedKeys(decoded, fold);
    ValidatedKeys(raw, fields);
    PreparedIsReadable(sha, hash, fields, values, x, events);
    hide HandoffRecord, Run, Project, DecodeItem, Validate, EncodeItem, Encodable, Lawful, NoExpiry, Readable,
         Injective, Lookup, RowsUpTo, Json.Utf8Length, SchemaHash, RoutingKey, RoutingValue, ValuesFor, Acceptable,
         Parsed, KeysParsed;
    var item := EncodeItem(HandoffRecord(values, x));
    CreateFirst(hash, item, events);
    var record := DecodeItem(Project(Run(hash, Some(item), events).value)).value;
    LookupReadable(sha, record, now, fields, raw, values, x, routingKey);
  }

  lemma CreateFirst(hash: ContentHash, item: Item, events: seq<Event>)
    ensures Run(hash, None, [Create(item)] + events) == Run(hash, Some(item), events)
  {
    var all := [Create(item)] + events;
    assert all[1..] == events && all[0] == Create(item);
  }

  lemma ValidatedKeys(raw: map<string, Json.Json>, fields: seq<Field>)
    requires Validate(raw, fields).Ok? && KeysParsed(fields)
    ensures ValuesFor(fields, Validate(raw, fields).value)
  {
  }

  predicate Holds(item: Item, k: string, v: Value) {
    k in item && Decode(item[k], 0) == Ok(v)
  }

  lemma Projected()
    ensures forall k :: k in {SCHEMA, REFERENCE, VALUES, SCHEMA_HASH, EXPIRES, STATUS} ==> k in PROJECTED
    ensures Kept(SCHEMA) && Kept(REFERENCE) && Kept(VALUES) && Kept(SCHEMA_HASH) && Kept(EXPIRES)
  {
    NamesDiffer();
  }

  lemma Shown(item: Item, k: string, v: Value)
    requires Decodable(item) && k in PROJECTED && Holds(item, k, v)
    ensures DecodeItem(Project(item)).Some? && HasAttribute(DecodeItem(Project(item)).value, k, v)
  {
    hide PROJECTED;
  }

  lemma CreatedHolds(fields: seq<Field>, values: map<string, string>, x: Facts)
    requires ValuesFor(fields, values)
    ensures Encodable(HandoffRecord(values, x))
    ensures
      var item := EncodeItem(HandoffRecord(values, x));
      && Decodable(item)
      && Holds(item, SCHEMA, Value.Int(2)) && Holds(item, REFERENCE, Value.Str(x.reference))
      && Holds(item, VALUES, Value.Map(StrMap(values))) && Holds(item, SCHEMA_HASH, Value.Str(x.schemaHash))
      && Holds(item, EXPIRES, Value.Int(x.expires))
      && STATUS in item && item[STATUS] == PREPARED && CONTENT in item && item[CONTENT] == S(x.content)
  {
    EncodedItem(fields, values, x);
    ProtocolAttributes(fields, values, x);
    hide HandoffRecord, ValuesFor, Decodable, Encodable, Decode;
  }

  lemma PreparedIsReadable(sha: string -> string, hash: ContentHash, fields: seq<Field>, values: map<string, string>,
                           x: Facts, events: seq<Event>)
    requires ValuesFor(fields, values) && FactsFor(sha, hash, fields, values, x)
    requires Injective(hash) && NoExpiry(events) && Lawful(events)
    ensures Encodable(HandoffRecord(values, x))
    ensures
      var row := Run(hash, Some(EncodeItem(HandoffRecord(values, x))), events);
      && row.Some? && DecodeItem(Project(row.value)).Some?
      && Readable(DecodeItem(Project(row.value)).value, sha, fields, values, x)
  {
    CreatedHolds(fields, values, x);
    var item := EncodeItem(HandoffRecord(values, x));
    hide HandoffRecord, ValuesFor, Run, Decode, Project, DecodeItem, PROJECTED, Kept, Decodable, Lawful, NoExpiry,
         EncodeItem, PreparedRow, Injective, SchemaHash, StrMap;
    CreatedIsPrepared(hash, values, x, item);
    Projected();
    KeptShown(hash, item, events, SCHEMA, Value.Int(2));
    KeptShown(hash, item, events, REFERENCE, Value.Str(x.reference));
    KeptShown(hash, item, events, VALUES, Value.Map(StrMap(values)));
    KeptShown(hash, item, events, SCHEMA_HASH, Value.Str(x.schemaHash));
    KeptShown(hash, item, events, EXPIRES, Value.Int(x.expires));
    EndShown(hash, item, events);
  }

  lemma CreatedIsPrepared(hash: ContentHash, values: map<string, string>, x: Facts, item: Item)
    requires Decodable(item) && STATUS in item && item[STATUS] == PREPARED && CONTENT in item
             && item[CONTENT] == S(x.content)
    requires x.content == hash(values[REFERENCE := x.reference])
    ensures PreparedRow(hash, item)
  {
    hide Decodable;
    assert REFERENCE in values[REFERENCE := x.reference];
  }

  /** An attribute no write changes reaches the reader. */
  lemma KeptShown(hash: ContentHash, item: Item, events: seq<Event>, k: string, v: Value)
    requires Injective(hash) && PreparedRow(hash, item) && NoExpiry(events) && Lawful(events)
    requires Kept(k) && k in PROJECTED && Holds(item, k, v)
    ensures
      var row := Run(hash, Some(item), events);
      row.Some? && DecodeItem(Project(row.value)).Some? && HasAttribute(DecodeItem(Project(row.value)).value, k, v)
  {
    PreparedRuns(hash, item, events);
    hide Run, Kept, PROJECTED, Decode, Lawful, NoExpiry, Injective;
    Shown(Run(hash, Some(item), events).value, k, v);
  }

  lemma EndShown(hash: ContentHash, item: Item, events: seq<Event>)
    requires Injective(hash) && PreparedRow(hash, item) && NoExpiry(events) && Lawful(events) && STATUS in PROJECTED
    ensures
      var row := Run(hash, Some(item), events);
      && row.Some? && DecodeItem(Project(row.value)).Some?
      && (HasAttribute(DecodeItem(Project(row.value)).value, STATUS, Value.Str("PREPARED"))
          || HasAttribute(DecodeItem(Project(row.value)).value, STATUS, Value.Str("RESERVED")))
  {
    PreparedRuns(hash, item, events);
    hide Run, Kept, PROJECTED, Decode, Lawful, NoExpiry, Injective;
    StatusShown(Run(hash, Some(item), events).value);
  }

  lemma StatusShown(item: Item)
    requires Decodable(item) && StatusIn(item, {PREPARED, RESERVED}) && STATUS in PROJECTED
    ensures DecodeItem(Project(item)).Some?
    ensures var r := DecodeItem(Project(item)).value;
            HasAttribute(r, STATUS, Value.Str("PREPARED")) || HasAttribute(r, STATUS, Value.Str("RESERVED"))
  {
    if item[STATUS] == PREPARED {
      Shown(item, STATUS, Value.Str("PREPARED"));
    } else {
      Shown(item, STATUS, Value.Str("RESERVED"));
    }
  }

  // A repeated preparation

  ghost predicate InjectiveText(sha: string -> string) {
    forall a, b :: sha(a) == sha(b) ==> a == b
  }

  /** A preparation is told "replayed" only if it carries the call and the values already stored. */
  lemma ReplayCarriesSameValues(hash: ContentHash, fields: seq<Field>, values: map<string, string>, x: Facts,
                                fields2: seq<Field>, values2: map<string, string>, x2: Facts, events: seq<Event>)
    requires ValuesFor(fields, values) && ValuesFor(fields2, values2)
    requires x.content == hash(values[REFERENCE := x.reference])
             && x2.content == hash(values2[REFERENCE := x2.reference])
    requires Injective(hash) && NoExpiry(events)
    ensures Encodable(HandoffRecord(values, x)) && Encodable(HandoffRecord(values2, x2))
    ensures
      IsReplay(Run(hash, Some(EncodeItem(HandoffRecord(values, x))), events), EncodeItem(HandoffRecord(values2, x2)))
      ==> values == values2 && x.reference == x2.reference
  {
    CreatedHolds(fields, values, x);
    CreatedHolds(fields2, values2, x2);
    CreatedPrint(fields, values, x);
    ReservedAreNotValues(fields, values, REFERENCE);
    ReservedAreNotValues(fields2, values2, REFERENCE);
    hide *;
    var item, item2 := EncodeItem(HandoffRecord(values, x)), EncodeItem(HandoffRecord(values2, x2));
    if IsReplay(Run(hash, Some(item), events), item2) {
      ReplayHasSameHash(hash, item, events, item2);
      assert hash(values[REFERENCE := x.reference]) == hash(values2[REFERENCE := x2.reference]);
      SameHashed(hash, values[REFERENCE := x.reference], values2[REFERENCE := x2.reference]);
      SameWithout(values, values2, REFERENCE, x.reference, x2.reference);
    }
  }

  lemma SameHashed(hash: ContentHash, a: map<string, string>, b: map<string, string>)
    requires Injective(hash) && hash(a) == hash(b)
    ensures a == b
  {
  }

  lemma ReplayHasSameHash(hash: ContentHash, item: Item, events: seq<Event>, item2: Item)
    requires NoExpiry(events) && CONTENT in item && CALL_PRINT in item && STATUS in item && item[STATUS] == PREPARED
    requires CONTENT in item2 && IsReplay(Run(hash, Some(item), events), item2)
    ensures item2[CONTENT] == item[CONTENT]
  {
    ReplayedIffSame(hash, item, events, item2);
  }

  lemma CreatedPrint(fields: seq<Field>, values: map<string, string>, x: Facts)
    requires ValuesFor(fields, values)
    ensures Encodable(HandoffRecord(values, x)) && CALL_PRINT in EncodeItem(HandoffRecord(values, x))
  {
    EncodedItem(fields, values, x);
    ProtocolAttributes(fields, values, x);
    hide HandoffRecord, ValuesFor, Decodable, Encodable, Decode;
  }

  lemma SameWithout(a: map<string, string>, b: map<string, string>, k: string, va: string, vb: string)
    requires k !in a && k !in b && a[k := va] == b[k := vb]
    ensures a == b && va == vb
  {
    assert a[k := va][k] == b[k := vb][k];
    assert a.Keys == a[k := va].Keys - {k} && b.Keys == b[k := vb].Keys - {k};
    forall j | j in a ensures a[j] == b[j] {
      assert a[k := va][j] == b[k := vb][j];
    }
  }

  // A replay under another configuration

  /** A display field's name is none of those the protocol writes beside it, by length or second letter. */
  lemma DisplayNames(k: string)
    requires k in DISPLAY_FIELDS
    ensures k in PROJECTED && Kept(k) && k != REFERENCE
    ensures k !in {VALUES, SCHEMA_HASH, CALL_PRINT, CONTENT, CREATED, UPDATED, EXPIRES, STATUS}
  {
    assert |k| in {13, 6, 19} && (|k| == 19 ==> k[1] == 'e');
    assert |REFERENCE| == 19 && REFERENCE[1] == 'a';
    assert |VALUES| == 17 && |SCHEMA_HASH| == 22 && |CALL_PRINT| == 21 && |CONTENT| == 12 && |STATUS| == 14;
    assert |CREATED| == 10 && |UPDATED| == 10 && |EXPIRES| == 10 && |CALL| == 16 && |ATTACHMENT| == 21;
  }

  lemma FlatAttribute(values: map<string, string>, x: Facts, k: string)
    requires k in DISPLAY_FIELDS && k in values
    ensures HasAttribute(HandoffRecord(values, x), k, Value.Str(values[k]))
  {
    DisplayNames(k);
    HeadAttributes(values, x);
    TailAttributes(x);
    assert k in Flat(values, x) && Flat(values, x)[k] == Value.Str(values[k]);
    hide Base, Flat, Nested, Tail, DISPLAY_FIELDS, PROJECTED, Kept, SCHEMA, CORRELATION, REFERENCE, VALUES, SCHEMA_HASH,
         CALL_PRINT, CONTENT, CREATED, UPDATED, EXPIRES, STATUS;
    Layers(Base(x), Flat(values, x), Nested(values, x), Tail(x), k);
  }

  /** The flat copy of a display field reaches the reader too. */
  lemma FlatShown(hash: ContentHash, fields: seq<Field>, values: map<string, string>, x: Facts, events: seq<Event>,
                  k: string)
    requires ValuesFor(fields, values) && x.content == hash(values[REFERENCE := x.reference])
    requires Injective(hash) && NoExpiry(events) && Lawful(events) && k in DISPLAY_FIELDS && k in values
    ensures Encodable(HandoffRecord(values, x))
    ensures
      var row := Run(hash, Some(EncodeItem(HandoffRecord(values, x))), events);
      && row.Some? && DecodeItem(Project(row.value)).Some?
      && HasAttribute(DecodeItem(Project(row.value)).value, k, Value.Str(values[k]))
  {
    CreatedHolds(fields, values, x);
    EncodedItem(fields, values, x);
    FlatAttribute(values, x, k);
    DisplayNames(k);
    var item := EncodeItem(HandoffRecord(values, x));
    assert Holds(item, k, Value.Str(values[k]));
    hide HandoffRecord, ValuesFor, Run, Decode, Project, DecodeItem, PROJECTED, Kept, Decodable, Lawful, NoExpiry,
         EncodeItem, PreparedRow, Injective, DISPLAY_FIELDS;
    CreatedIsPrepared(hash, values, x, item);
    KeptShown(hash, item, events, k, Value.Str(values[k]));
  }

  /** The keys of the four display fields. */
  lemma DisplayKeys(fields: seq<Field>)
    requires DisplaysOnly(fields)
    ensures KeySet(fields) == set k | k in DISPLAY_FIELDS
  {
    forall k | k in KeySet(fields) ensures k in DISPLAY_FIELDS {
      var f :| f in fields && f.key == k;
      var i :| 0 <= i < |fields| && fields[i] == f;
      assert k == DISPLAY_FIELDS[i];
    }
    forall k | k in DISPLAY_FIELDS ensures k in KeySet(fields) {
      var i :| 0 <= i < |DISPLAY_FIELDS| && DISPLAY_FIELDS[i] == k;
      assert fields[i].key == k && fields[i] in fields;
    }
  }

  /** What the fallback of the lookup reads. */
  predicate FlatReadable(record: Record, values: map<string, string>) {
    && values.Keys == (set k | k in DISPLAY_FIELDS)
    && forall k :: k in DISPLAY_FIELDS ==> HasAttribute(record, k, Value.Str(values[k]))
  }

  lemma LookupFlat(sha: string -> string, record: Record, now: int, fields: seq<Field>, values: map<string, string>,
                   x: Facts, raw2: map<string, Json.Json>, fields2: seq<Field>, routingKey: string)
    requires Readable(record, sha, fields, values, x) && !IsCurrentSchema(sha, record, fields2)
    requires DisplaysOnly(fields2) && FlatReadable(record, values)
    requires Validate(raw2, fields2) == Ok(values) && now < x.expires && Json.Utf8Length(x.reference) <= 128
    ensures Lookup(sha, Some(record), now, fields2, routingKey)
         == if routingKey == "" then Screen(true, x.reference, "", RowsUpTo(fields2, Some(values), MAX_FIELDS))
            else Unavailable(fields2)
  {
    hide Validate, RowsUpTo, FindField, Json.Utf8Length, IsCurrentSchema, DISPLAY_FIELDS, DisplaysOnly, FlatReadable,
         FlatRaw, AsJson, RawOf;
    FlatRawIs(record, values);
    ValidateIsIdempotent(raw2, fields2);
  }

  lemma FlatRawIs(record: Record, values: map<string, string>)
    requires FlatReadable(record, values)
    ensures FlatRaw(record) == AsJson(values)
  {
    hide DISPLAY_FIELDS;
  }

  /** When a lookup under these fields shows the row written under those. */
  predicate Shows(fields: seq<Field>, fields2: seq<Field>, routingKey: string) {
    (fields2 == fields && RoutingKey(fields2, routingKey)) || (DisplaysOnly(fields2) && routingKey == "")
  }

  /** But it is not compared with the stored configuration: a replayed preparation reaches the screen, with its
      own values, if and only if the row was written under the same fields or the fields' keys are the four
      default ones, whose values the row also holds flat; queues are picked only under the same fields. */
  lemma ReplayedToScreenIff(sha: string -> string, hash: ContentHash, fold: string -> string, decoded: Json.Json,
                            raw: map<string, Json.Json>, values: map<string, string>, x: Facts, decoded2: Json.Json,
                            raw2: map<string, Json.Json>, values2: map<string, string>, x2: Facts, events: seq<Event>,
                            now: int, routingKey: string)
    requires Acceptable(decoded, fold) && Acceptable(decoded2, fold)
    requires Validate(raw, Parsed(decoded.items)) == Ok(values) && FactsFor(sha, hash, Parsed(decoded.items), values, x)
    requires Validate(raw2, Parsed(decoded2.items)) == Ok(values2)
             && FactsFor(sha, hash, Parsed(decoded2.items), values2, x2)
    requires Injective(hash) && InjectiveText(sha) && NoExpiry(events) && Lawful(events)
    requires now < x.expires && Json.Utf8Length(x.reference) <= 128
    ensures Encodable(HandoffRecord(values, x)) && Encodable(HandoffRecord(values2, x2))
    ensures
      var fields, fields2 := Parsed(decoded.items), Parsed(decoded2.items);
      var row := Run(hash, Some(EncodeItem(HandoffRecord(values, x))), events);
      IsReplay(row, EncodeItem(HandoffRecord(values2, x2))) ==>
        ReadAndLookup(sha, row, now, fields2, routingKey)
        == if Shows(fields, fields2, routingKey)
           then Screen(true, x2.reference, RoutingValue(values2, routingKey),
                       RowsUpTo(fields2, Some(values2), MAX_FIELDS))
           else Unavailable(fields2)
  {
    var fields, fields2 := Parsed(decoded.items), Parsed(decoded2.items);
    ParsedKeys(decoded, fold);
    ParsedKeys(decoded2, fold);
    ParsedChoices(decoded, fold);
    ParsedChoices(decoded2, fold);
    ValidatedKeys(raw, fields);
    ValidatedKeys(raw2, fields2);
    ReplayCarriesSameValues(hash, fields, values, x, fields2, values2, x2, events);
    hide *;
    if IsReplay(Run(hash, Some(EncodeItem(HandoffRecord(values, x))), events), EncodeItem(HandoffRecord(values2, x2))) {
      ShownUnder(sha, hash, fields, values, x, raw2, fields2, events, now, routingKey);
    }
  }

  /** One set of values, valid under both configurations, written under one and read under the other. */
  lemma ShownUnder(sha: string -> string, hash: ContentHash, fields: seq<Field>, values: map<string, string>, x: Facts,
                   raw2: map<string, Json.Json>, fields2: seq<Field>, events: seq<Event>, now: int, routingKey: string)
    requires ValuesFor(fields, values) && FactsFor(sha, hash, fields, values, x)
    requires ValuesFor(fields2, values) && Validate(raw2, fields2) == Ok(values)
    requires ChoicesOnlyForChoice(fields) && ChoicesOnlyForChoice(fields2)
    requires Injective(hash) && InjectiveText(sha) && NoExpiry(events) && Lawful(events)
    requires now < x.expires && Json.Utf8Length(x.reference) <= 128
    ensures Encodable(HandoffRecord(values, x))
    ensures ReadAndLookup(sha, Run(hash, Some(EncodeItem(HandoffRecord(values, x))), events), now, fields2, routingKey)
         == if Shows(fields, fields2, routingKey)
            then Screen(true, x.reference, RoutingValue(values, routingKey),
                        RowsUpTo(fields2, Some(values), MAX_FIELDS))
            else Unavailable(fields2)
  {
    hide HandoffRecord, Run, Project, DecodeItem, Validate, EncodeItem, Encodable, Lawful, NoExpiry, Readable,
         Injective, InjectiveText, ChoicesOnlyForChoice, DisplaysOnly, Lookup, RowsUpTo, Json.Utf8Length, SchemaHash,
         IsCurrentSchema,
         RoutingKey, RoutingValue, ValuesFor, FlatReadable, DISPLAY_FIELDS;
    PreparedIsReadable(sha, hash, fields, values, x, events);
    var record := DecodeItem(Project(Run(hash, Some(EncodeItem(HandoffRecord(values, x))), events).value)).value;
    if fields2 == fields {
      LookupSame(sha, record, now, fields, raw2, values, x, routingKey);
    } else {
      OtherSchema(sha, record, fields, values, x, fields2);
      if DisplaysOnly(fields2) {
        FlatOf(hash, fields, values, x, events, raw2, fields2);
        LookupFlat(sha, record, now, fields, values, x, raw2, fields2, routingKey);
        EmptyRouting(values);
      } else {
        LookupOther(sha, record, now, fields2, routingKey);
      }
    }
  }

  function OrderField(title: string): Field {
    Field("order", title, "Order number.", false, 20, true, [])
  }

  /** Two configurations may differ in a label only, whatever `fold` does to it. */
  lemma RelabelledExample(fold: string -> string)
    ensures
      var before, after := OrderField("Order"), OrderField("Purchase");
      && Acceptable(FieldsTree([before]), fold) && Parsed(FieldsTree([before]).items) == [before]
      && Acceptable(FieldsTree([after]), fold) && Parsed(FieldsTree([after]).items) == [after]
      && SameButLabels([before], [after]) && before.title != after.title && !DisplaysOnly([after])
  {
    var before, after := OrderField("Order"), OrderField("Purchase");
    assert before.title != after.title by {
      assert |before.title| == 5 && |after.title| == 8;
    }
    assert SameButLabels([before], [after]) && !DisplaysOnly([after]);
    OrderParses("Order");
    OrderParses("Purchase");
    hide OrderField;
    OneField(before, fold);
    OneField(after, fold);
    hide *;
  }

  lemma OneField(f: Field, fold: string -> string)
    requires ParseItem(FieldTree(f)) == Ok(f)
    ensures Acceptable(FieldsTree([f]), fold) && Parsed(FieldsTree([f]).items) == [f]
  {
    hide ParseItem, FieldTree;
    var items := FieldsTree([f]).items;
    assert |items| == 1 && items[0] == FieldTree(f);
    assert AllParse(items);
    assert Parsed(items) == [f];
  }

  lemma OrderParses(title: string)
    requires IsPlainText(Json.Str(title), 64)
    ensures ParseItem(FieldTree(OrderField(title))) == Ok(OrderField(title))
  {
    var f := OrderField(title);
    TreeMembers(f);
    OrderIsKey();
    DescriptionIsPlain();
    assert FieldTree(f).Obj?;
    hide FieldTree, RESERVED_KEYS, IsKey, IsPlainText, Get, Has;
  }

  lemma OrderIsKey()
    ensures IsKey("order") && "order" !in RESERVED_KEYS
  {
    hide RESERVED_KEYS;
    ReservedAreLong();
    assert |"order"| == 5;
  }

  lemma DescriptionIsPlain()
    ensures IsPlainText(Json.Str("Order number."), 256)
  {
  }

  lemma ReservedAreLong()
    ensures forall k :: k in RESERVED_KEYS ==> |k| > 5
  {
  }

  lemma EncodedAttribute(values: map<string, string>, x: Facts, k: string, v: Value)
    requires Encodable(HandoffRecord(values, x)) && HasAttribute(HandoffRecord(values, x), k, v)
    ensures k in EncodeItem(HandoffRecord(values, x)) && EncodeItem(HandoffRecord(values, x))[k] == Encode(v, 0).value
  {
  }

  lemma SameCallIsReplay(hash: ContentHash, fields: seq<Field>, fields2: seq<Field>, values: map<string, string>,
                         x: Facts, x2: Facts, events: seq<Event>)
    requires ValuesFor(fields, values) && ValuesFor(fields2, values)
    requires x2.callPrint == x.callPrint && x2.content == x.content && NoExpiry(events)
    ensures Encodable(HandoffRecord(values, x)) && Encodable(HandoffRecord(values, x2))
    ensures IsReplay(Run(hash, Some(EncodeItem(HandoffRecord(values, x))), events),
                     EncodeItem(HandoffRecord(values, x2)))
  {
    RecordEncodes(fields, values, x);
    RecordEncodes(fields2, values, x2);
    ProtocolAttributes(fields, values, x);
    ProtocolAttributes(fields2, values, x2);
    hide HandoffRecord, EncodeItem, Encodable, ValuesFor, Run;
    EncodedAttribute(values, x, SCHEMA, Value.Int(2));
    EncodedAttribute(values, x2, SCHEMA, Value.Int(2));
    EncodedAttribute(values, x, CALL_PRINT, Value.Str(x.callPrint));
    EncodedAttribute(values, x2, CALL_PRINT, Value.Str(x.callPrint));
    EncodedAttribute(values, x, CONTENT, Value.Str(x.content));
    EncodedAttribute(values, x2, CONTENT, Value.Str(x.content));
    EncodedAttribute(values, x, STATUS, Value.Str("PREPARED"));
    ReplayedIffSame(hash, EncodeItem(HandoffRecord(values, x)), events, EncodeItem(HandoffRecord(values, x2)));
  }

  /** A changed label is enough: the same call with the same arguments is told "replayed", yet its screen shows
      nothing, unless the keys are the four default ones, and then it shows the new label. */
  lemma RelabelledReplay(sha: string -> string, hash: ContentHash, fold: string -> string, decoded: Json.Json,
                         decoded2: Json.Json, raw: map<string, Json.Json>, values: map<string, string>, x: Facts,
                         x2: Facts,
                         events: seq<Event>, now: int, i: nat)
    requires Acceptable(decoded, fold) && Acceptable(decoded2, fold)
    requires SameButLabels(Parsed(decoded.items), Parsed(decoded2.items))
    requires i < |Parsed(decoded.items)| && Parsed(decoded2.items)[i].title != Parsed(decoded.items)[i].title
    requires Validate(raw, Parsed(decoded.items)) == Ok(values) && FactsFor(sha, hash, Parsed(decoded.items), values, x)
    requires FactsFor(sha, hash, Parsed(decoded2.items), values, x2)
    requires x2.reference == x.reference && x2.callPrint == x.callPrint
    requires Injective(hash) && InjectiveText(sha) && NoExpiry(events) && Lawful(events)
    requires now < x.expires && Json.Utf8Length(x.reference) <= 128
    ensures Validate(raw, Parsed(decoded2.items)) == Ok(values)
    ensures Encodable(HandoffRecord(values, x)) && Encodable(HandoffRecord(values, x2))
    ensures
      var fields, fields2 := Parsed(decoded.items), Parsed(decoded2.items);
      var row := Run(hash, Some(EncodeItem(HandoffRecord(values, x))), events);
      && IsReplay(row, EncodeItem(HandoffRecord(values, x2)))
      && ReadAndLookup(sha, row, now, fields2, "")
         == (if DisplaysOnly(fields2) then Screen(true, x.reference, "", RowsUpTo(fields2, Some(values), MAX_FIELDS))
             else Unavailable(fields2))
      && LabelKey(i + 1) in RowsUpTo(fields2, Some(values), MAX_FIELDS)
      && RowsUpTo(fields2, Some(values), MAX_FIELDS)[LabelKey(i + 1)] == fields2[i].title
  {
    var fields, fields2 := Parsed(decoded.items), Parsed(decoded2.items);
    LabelsDoNotMatter(fields, fields2, raw);
    ParsedKeys(decoded, fold);
    ParsedKeys(decoded2, fold);
    ValidatedKeys(raw, fields);
    ValidatedKeys(raw, fields2);
    EmptyRouting(values);
    assert |fields| <= MAX_FIELDS && Shows(fields, fields2, "") == DisplaysOnly(fields2);
    hide ValuesFor, HandoffRecord, EncodeItem, Encodable, Run, Validate, KeysParsed, SameButLabels, Acceptable, Parsed,
         Injective, InjectiveText, NoExpiry, Lawful, RowsUpTo, DisplaysOnly, ReadAndLookup, Json.Utf8Length, Shows,
         IsReplay, LabelKey;
    SameCallIsReplay(hash, fields, fields2, values, x, x2, events);
    ReplayedToScreenIff(sha, hash, fold, decoded, raw, values, x, decoded2, raw, values, x2, events, now, "");
    RowAt(fields2, Some(values), MAX_FIELDS, i + 1);
  }

  lemma EmptyRouting(values: map<string, string>)
    ensures RoutingValue(values, "") == ""
  {
  }

  /** Under the fields the row was written with, everything but a wrong routing key is shown. */
  lemma LookupSame(sha: string -> string, record: Record, now: int, fields: seq<Field>, raw: map<string, Json.Json>,
                   values: map<string, string>, x: Facts, routingKey: string)
    requires Validate(raw, fields) == Ok(values) && Readable(record, sha, fields, values, x)
    requires now < x.expires && Json.Utf8Length(x.reference) <= 128
    ensures Lookup(sha, Some(record), now, fields, routingKey)
         == if Shows(fields, fields, routingKey)
            then Screen(true, x.reference, RoutingValue(values, routingKey), RowsUpTo(fields, Some(values), MAX_FIELDS))
            else Unavailable(fields)
  {
    if RoutingKey(fields, routingKey) {
      LookupReadable(sha, record, now, fields, raw, values, x, routingKey);
    } else {
      hide Validate, RowsUpTo, Json.Utf8Length, DisplaysOnly;
      RawOfIsAsJson(values);
      ValidateIsIdempotent(raw, fields);
    }
  }

  lemma FlatOf(hash: ContentHash, fields: seq<Field>, values: map<string, string>, x: Facts, events: seq<Event>,
               raw2: map<string, Json.Json>, fields2: seq<Field>)
    requires ValuesFor(fields, values) && x.content == hash(values[REFERENCE := x.reference])
    requires Injective(hash) && NoExpiry(events) && Lawful(events)
    requires DisplaysOnly(fields2) && ValuesFor(fields2, values)
    ensures Encodable(HandoffRecord(values, x))
    ensures
      var row := Run(hash, Some(EncodeItem(HandoffRecord(values, x))), events);
      && row.Some? && DecodeItem(Project(row.value)).Some? && FlatReadable(DecodeItem(Project(row.value)).value, values)
  {
    DisplayKeys(fields2);
    assert values.Keys == set k | k in DISPLAY_FIELDS;
    hide HandoffRecord, Run, Project, DecodeItem, EncodeItem, ValuesFor, Injective, NoExpiry, Lawful, Encodable;
    FlatShown(hash, fields, values, x, events, DISPLAY_FIELDS[0]);
    forall k | k in DISPLAY_FIELDS
      ensures HasAttribute(DecodeItem(Project(Run(hash, Some(EncodeItem(HandoffRecord(values, x))),
                                                  events).value)).value, k, Value.Str(values[k]))
    {
      FlatShown(hash, fields, values, x, events, k);
    }
  }

  lemma OtherSchema(sha: string -> string, record: Record, fields: seq<Field>, values: map<string, string>, x: Facts,
                    fields2: seq<Field>)
    requires Readable(record, sha, fields, values, x) && InjectiveText(sha) && fields2 != fields
    requires ChoicesOnlyForChoice(fields) && ChoicesOnlyForChoice(fields2)
    ensures !IsCurrentSchema(sha, record, fields2)
  {
    hide FieldsJson, ChoicesOnlyForChoice;
    if SchemaHash(sha, fields) == SchemaHash(sha, fields2) {
      FieldsJsonIsInjective(fields, fields2);
    }
  }

  lemma LookupOther(sha: string -> string, record: Record, now: int, fields2: seq<Field>, routingKey: string)
    requires !IsCurrentSchema(sha, record, fields2) && !DisplaysOnly(fields2)
    ensures Lookup(sha, Some(record), now, fields2, routingKey) == Unavailable(fields2)
  {
  }
}
