/** A direct handoff on the agent's screen (lambda/common/bridgefu_handoff.py: `direct_browser_handoff`,
    `connect_lookup`; qualification/controller.py: `direct_context_item`). */
module HandoffDirect {
  import opened Wrappers
  import opened DynamoValue
  import opened HandoffRow
  import opened HandoffSystem
  import opened ScreenPop
  import H = Handoff
  import Json
  import Decimal

  /** What a staged record and every later form of its row hold for a lookup. */
  predicate Shape(sha: string -> string, fields: seq<Field>, item: Item) {
    && H.Decodable(item) && REFERENCE !in item
    && H.Holds(item, SCHEMA, Value.Int(2)) && H.Holds(item, H.SCHEMA_HASH, Value.Str(SchemaHash(sha, fields)))
    && IntAttr(item, EXPIRES).Some?
    && (CONTENT in item ==> StatusIn(item, {PREPARED, RESERVED}))
  }

  /** The record of a direct session, staged for this configuration. */
  predicate StagedRecord(sha: string -> string, fields: seq<Field>, item: Item) {
    CALL_PRINT !in item && CONTENT !in item && Shape(sha, fields, item)
  }

  /** `direct_context_item`, after its checks of the arguments. */
  function ContextItem(correlation: string, token: string, route: Route, schemaHash: string, now: int): Item {
    map[SCHEMA := Num(2), H.CORRELATION := S(correlation), H.CREATED := Num(now), UPDATED := Num(now),
        EXPIRES := Num(now + 3600), STATUS := MAPPED, H.SCHEMA_HASH := S(schemaHash), TOKEN := S(token),
        CALL := S(route.callId), LEG := S(route.legId),
        ROUTE := S(route.routeId), IDEMPOTENCY := S(route.idempotencyKey)]
  }

  /** The names it writes are all different, and none is the fingerprint's, the hash's or the reference's. */
  lemma ContextNames()
    ensures {CALL_PRINT, CONTENT, REFERENCE} !! {SCHEMA, H.CORRELATION, H.CREATED, UPDATED, EXPIRES, STATUS,
                                                 H.SCHEMA_HASH, TOKEN, CALL, LEG, ROUTE, IDEMPOTENCY}
    ensures SCHEMA !in {H.CORRELATION, H.CREATED, UPDATED, EXPIRES, STATUS, H.SCHEMA_HASH, TOKEN, CALL, LEG, ROUTE,
                        IDEMPOTENCY}
    ensures EXPIRES !in {STATUS, H.SCHEMA_HASH, TOKEN, CALL, LEG, ROUTE, IDEMPOTENCY}
    ensures H.SCHEMA_HASH !in {TOKEN, CALL, LEG, ROUTE, IDEMPOTENCY}
    ensures CALL !in {LEG, ROUTE, IDEMPOTENCY} && LEG !in {ROUTE, IDEMPOTENCY} && ROUTE != IDEMPOTENCY
  {
    assert |SCHEMA| == 14 && |H.CORRELATION| == 14 && |STATUS| == 14 && |H.CREATED| == 10 && |UPDATED| == 10
           && |EXPIRES| == 10;
    assert |H.SCHEMA_HASH| == 22 && |TOKEN| == 15 && |CALL| == 16 && |LEG| == 13 && |ROUTE| == 15
           && |IDEMPOTENCY| == 22;
    assert |CALL_PRINT| == 21 && |CONTENT| == 12 && |REFERENCE| == 19;
    assert SCHEMA[0] == 's' && H.CORRELATION[0] == 'c' && STATUS[0] == 'h' && EXPIRES[0] == 'e' && UPDATED[0] == 'u'
           && H.CREATED[0] == 'c';
    assert H.SCHEMA_HASH[0] == 's' && IDEMPOTENCY[0] == 'd';
  }

  lemma ContextAttributes(correlation: string, token: string, route: Route, schemaHash: string, now: int)
    ensures
      var item := ContextItem(correlation, token, route, schemaHash, now);
      && CALL_PRINT !in item && CONTENT !in item && REFERENCE !in item
      && SCHEMA in item && item[SCHEMA] == Num(2) && EXPIRES in item && item[EXPIRES] == Num(now + 3600)
      && H.SCHEMA_HASH in item && item[H.SCHEMA_HASH] == S(schemaHash)
      && CALL in item && item[CALL] == S(route.callId) && LEG in item && item[LEG] == S(route.legId)
      && ROUTE in item && item[ROUTE] == S(route.routeId) && IDEMPOTENCY in item
          && item[IDEMPOTENCY] == S(route.idempotencyKey)
      && forall k :: k in item ==> item[k].S? || item[k] in {Num(2), Num(now), Num(now + 3600)}
  {
    ContextNames();
    hide Num, SCHEMA, H.CORRELATION, H.CREATED, UPDATED, EXPIRES, STATUS, H.SCHEMA_HASH, TOKEN, CALL, LEG, ROUTE,
         IDEMPOTENCY, CALL_PRINT, CONTENT, REFERENCE;
  }

  /** What is staged for a direct session is a record of one, holding its route. */
  lemma ContextIsStaged(sha: string -> string, fields: seq<Field>, correlation: string, token: string, route: Route,
                        now: int)
    requires Identifier(S(route.callId)) && Identifier(S(route.legId)) && Identifier(S(route.routeId))
    requires Identifier(S(route.idempotencyKey))
    ensures
      var item := ContextItem(correlation, token, route, SchemaHash(sha, fields), now);
      StagedRecord(sha, fields, item) && RouteOf(item) == Some(route) && IntAttr(item, EXPIRES) == Some(now + 3600)
  {
    ContextAttributes(correlation, token, route, SchemaHash(sha, fields), now);
    var item := ContextItem(correlation, token, route, SchemaHash(sha, fields), now);
    H.NumDecodes(2);
    H.NumDecodes(now);
    H.NumDecodes(now + 3600);
    Decimal.ParseOf(2);
    Decimal.ParseOf(now + 3600);
    hide ContextItem, SchemaHash, Identifier, SCHEMA, EXPIRES, H.SCHEMA_HASH, CALL, LEG, ROUTE, IDEMPOTENCY,
         CALL_PRINT, CONTENT, REFERENCE;
  }

  /** A staged session's row does go back: what it became by a first handoff, reserved, a repeated one takes back
      to PREPARED. */
  lemma ReservedGoesBackToPrepared(hash: ContentHash, correlation: string, token: string, route: Route,
                                   schemaHash: string, now: int, values: map<string, string>, identity: string,
                                   at: int, again: int)
    requires at < now + 3600 && again < now + 3600
    ensures
      var item := ContextItem(correlation, token, route, schemaHash, now);
      var first, repeated := PrepareDirect(token, values, identity, at), PrepareDirect(token, values, identity, again);
      var reserved := Step(hash, Step(hash, Some(item), first), MarkStarted(at));
      && reserved.Some? && StatusIn(reserved.value, {RESERVED})
      && Step(hash, reserved, repeated).Some? && StatusIn(Step(hash, reserved, repeated).value, {PREPARED})
  {
    var item := ContextItem(correlation, token, route, schemaHash, now);
    ContextStatus(correlation, token, route, schemaHash, now);
    ContextAttributes(correlation, token, route, schemaHash, now);
    Decimal.ParseOf(now + 3600);
    hide ContextItem;
    var prepared := MayPrepare(hash, item, token, values, identity, now + 3600, at);
    var reserved := MayStart(hash, prepared, token, values, identity, now + 3600, at);
    var _ := MayPrepare(hash, reserved, token, values, identity, now + 3600, again);
  }

  /** A row that a direct preparation with these arguments is accepted on. */
  predicate Waits(hash: ContentHash, item: Item, token: string, values: map<string, string>, identity: string,
                  expires: int) {
    && TOKEN in item && item[TOKEN] == S(token) && IntAttr(item, EXPIRES) == Some(expires)
    && StatusIn(item, {MAPPED, PREPARED, RESERVED})
    && (CONTENT in item ==> item[CONTENT] == S(hash(values)))
        && (CALL_PRINT in item ==> item[CALL_PRINT] == S(identity))
  }

  lemma StepNames()
    ensures {TOKEN, EXPIRES} !! {STATUS, UPDATED, VALUES, CONTENT, CALL_PRINT}
    ensures STATUS !in {UPDATED, VALUES, CONTENT, CALL_PRINT} && CONTENT !in {STATUS, UPDATED, CALL_PRINT}
    ensures CALL_PRINT !in {STATUS, UPDATED, CONTENT}
  {
    StatusesDiffer();
    assert |TOKEN| == 15 && |EXPIRES| == 10 && |UPDATED| == 10 && EXPIRES[0] == 'e' && UPDATED[0] == 'u';
    assert |STATUS| == 14 && |VALUES| == 17 && |CONTENT| == 12 && |CALL_PRINT| == 21;
  }

  lemma MayPrepare(hash: ContentHash, item: Item, token: string, values: map<string, string>, identity: string,
                   expires: int, at: int) returns (next: Item)
    requires Waits(hash, item, token, values, identity, expires) && at < expires
    ensures Step(hash, Some(item), PrepareDirect(token, values, identity, at)) == Some(next)
    ensures Waits(hash, next, token, values, identity, expires) && StatusIn(next, {PREPARED})
  {
    StepNames();
    hide TOKEN, EXPIRES, STATUS, UPDATED, VALUES, CONTENT, CALL_PRINT, ValuesAttr, Num, MAPPED, PREPARED, RESERVED;
    next := Step(hash, Some(item), PrepareDirect(token, values, identity, at)).value;
  }

  lemma MayStart(hash: ContentHash, item: Item, token: string, values: map<string, string>, identity: string,
                 expires: int, at: int) returns (next: Item)
    requires Waits(hash, item, token, values, identity, expires) && StatusIn(item, {PREPARED})
    ensures Step(hash, Some(item), MarkStarted(at)) == Some(next)
    ensures Waits(hash, next, token, values, identity, expires) && StatusIn(next, {RESERVED})
  {
    StepNames();
    hide TOKEN, EXPIRES, STATUS, UPDATED, VALUES, CONTENT, CALL_PRINT, ValuesAttr, Num, MAPPED, PREPARED, RESERVED;
    next := Step(hash, Some(item), MarkStarted(at)).value;
  }

  lemma ContextStatus(correlation: string, token: string, route: Route, schemaHash: string, now: int)
    ensures
      var item := ContextItem(correlation, token, route, schemaHash, now);
      STATUS in item && item[STATUS] == MAPPED && TOKEN in item && item[TOKEN] == S(token)
  {
  }

  /** Values that were validated against this configuration. */
  predicate ValidValues(fields: seq<Field>, values: map<string, string>) {
    Validate(AsJson(values), fields) == Ok(values)
  }

  /** The actions of a direct session: its staged records, and preparations with validated values. */
  predicate OfSession(sha: string -> string, fields: seq<Field>, a: Action) {
    && (a.Put? ==> StagedRecord(sha, fields, a.record))
    && (a.Direct? ==> ValidValues(fields, a.values))
  }

  predicate AllOfSession(sha: string -> string, fields: seq<Field>, actions: seq<Action>) {
    forall i :: 0 <= i < |actions| ==> OfSession(sha, fields, actions[i])
  }

  predicate FlightsValid(fields: seq<Field>, flights: seq<Flight>) {
    forall i :: 0 <= i < |flights| ==> ValidValues(fields, flights[i].values)
  }

  predicate ShapeOf(sha: string -> string, fields: seq<Field>, row: Row) {
    row.Some? ==> Shape(sha, fields, row.value)
  }

  lemma ValidKeys(fields: seq<Field>, values: map<string, string>)
    requires H.KeysParsed(fields) && ValidValues(fields, values)
    ensures H.ValuesFor(fields, values)
  {
    H.ValidatedKeys(AsJson(values), fields);
  }

  lemma ValuesDecode(fields: seq<Field>, values: map<string, string>)
    requires H.KeysParsed(fields) && ValidValues(fields, values)
    ensures Decode(ValuesAttr(values), 0) == Ok(Value.Map(H.StrMap(values)))
  {
    ValidKeys(fields, values);
    H.NestedEncodes(fields, values);
    DecodeEncode(Value.Map(H.StrMap(values)), 0);
  }

  lemma HoldsFrame(item: Item, k: string, a: Attr, key: string, v: Value)
    requires H.Holds(item, key, v) && key != k
    ensures H.Holds(item[k := a], key, v)
  {
  }

  /** Writing a decodable value under none of the names a lookup depends on. */
  lemma ShapeFrame(sha: string -> string, fields: seq<Field>, item: Item, k: string, a: Attr)
    requires Shape(sha, fields, item) && Decode(a, 0).Ok?
    requires k !in {SCHEMA, H.SCHEMA_HASH, EXPIRES, REFERENCE, CONTENT}
    requires k == STATUS ==> a in {PREPARED, RESERVED}
    ensures Shape(sha, fields, item[k := a])
  {
    H.StaysDecodable(item, k, a);
    HoldsFrame(item, k, a, SCHEMA, Value.Int(2));
    HoldsFrame(item, k, a, H.SCHEMA_HASH, Value.Str(SchemaHash(sha, fields)));
    hide Decode, H.Decodable, H.Holds, SchemaHash, SCHEMA, H.SCHEMA_HASH, EXPIRES, REFERENCE, CONTENT, STATUS;
  }

  lemma StepKeepsShape(env: Env, fields: seq<Field>, row: Row, e: Event)
    requires H.KeysParsed(fields) && ShapeOf(env.sha, fields, row) && !e.MarkReserved?
    requires e.Create? ==> Shape(env.sha, fields, e.record)
    requires e.PrepareDirect? ==> ValidValues(fields, e.values)
    ensures ShapeOf(env.sha, fields, Step(env.hash, row, e))
  {
    if row.Some? && Accepts(env.hash, row, e) {
      H.NamesDiffer();
      match e
      case PrepareDirect(token, values, identity, at) => DirectKeepsShape(env, fields, row.value, values, identity, at);
      case MarkStarted(at) =>
        H.NumDecodes(at);
        hide Shape, Decode, Num;
        ShapeFrame(env.sha, fields, row.value, STATUS, RESERVED);
        ShapeFrame(env.sha, fields, row.value[STATUS := RESERVED], UPDATED, Num(at));
      case _ =>
    }
  }

  lemma DirectKeepsShape(env: Env, fields: seq<Field>, item: Item, values: map<string, string>, identity: string,
                         at: int)
    requires H.KeysParsed(fields) && Shape(env.sha, fields, item) && ValidValues(fields, values)
    ensures Shape(env.sha, fields, item[STATUS := PREPARED][UPDATED := Num(at)][VALUES := ValuesAttr(values)]
                                       [CONTENT := S(env.hash(values))][CALL_PRINT := S(identity)])
  {
    H.NumDecodes(at);
    ValuesDecode(fields, values);
    assert Decode(S(identity), 0).Ok? && Decode(S(env.hash(values)), 0).Ok?;
    hide Shape, Decode, Num, ValuesAttr, H.KeysParsed, ValidValues;
    var prepared := item[STATUS := PREPARED][UPDATED := Num(at)][VALUES := ValuesAttr(values)];
    FirstWrites(env.sha, fields, item, Num(at), ValuesAttr(values), prepared);
    LastWrites(env.sha, fields, prepared, S(env.hash(values)), S(identity));
  }

  lemma FirstWrites(sha: string -> string, fields: seq<Field>, item: Item, at: Attr, values: Attr, prepared: Item)
    requires Shape(sha, fields, item) && Decode(at, 0).Ok? && Decode(values, 0).Ok?
    requires prepared == item[STATUS := PREPARED][UPDATED := at][VALUES := values]
    ensures Shape(sha, fields, prepared) && STATUS in prepared && prepared[STATUS] == PREPARED
  {
    H.NamesDiffer();
    hide Shape;
    ShapeFrame(sha, fields, item, STATUS, PREPARED);
    ShapeFrame(sha, fields, item[STATUS := PREPARED], UPDATED, at);
    ShapeFrame(sha, fields, item[STATUS := PREPARED][UPDATED := at], VALUES, values);
  }

  lemma LastWrites(sha: string -> string, fields: seq<Field>, item: Item, content: Attr, identity: Attr)
    requires Shape(sha, fields, item) && Decode(content, 0).Ok? && Decode(identity, 0).Ok?
    requires STATUS in item && item[STATUS] == PREPARED
    ensures Shape(sha, fields, item[CONTENT := content][CALL_PRINT := identity])
  {
    H.NamesDiffer();
    hide Shape;
    ContentFrame(sha, fields, item, content);
    ShapeFrame(sha, fields, item[CONTENT := content], CALL_PRINT, identity);
  }

  lemma ContentFrame(sha: string -> string, fields: seq<Field>, item: Item, a: Attr)
    requires Shape(sha, fields, item) && Decode(a, 0).Ok? && STATUS in item && item[STATUS] == PREPARED
    ensures Shape(sha, fields, item[CONTENT := a])
  {
    H.NamesDiffer();
    H.StaysDecodable(item, CONTENT, a);
    HoldsFrame(item, CONTENT, a, SCHEMA, Value.Int(2));
    HoldsFrame(item, CONTENT, a, H.SCHEMA_HASH, Value.Str(SchemaHash(sha, fields)));
    hide Decode, H.Decodable, H.Holds, SchemaHash;
  }

  lemma NextKeepsShape(env: Env, fields: seq<Field>, s: System, a: Action)
    requires H.KeysParsed(fields) && ShapeOf(env.sha, fields, s.row) && FlightsValid(fields, s.flights)
             && s.transfers == []
    requires OfSession(env.sha, fields, a)
    ensures ShapeOf(env.sha, fields, Next(env, s, a).row) && FlightsValid(fields, Next(env, s, a).flights)
  {
    hide H.KeysParsed, Shape, ValidValues, Accepts, RouteOf, DirectPrint, CallPrint;
    match a
    case Put(record) => StepKeepsShape(env, fields, s.row, Create(record));
    case Direct(token, values, org, call, at) =>
      StepKeepsShape(env, fields, s.row, PrepareDirect(token, values, DirectPrint(env, org, call), at));
    case Start(at) => StepKeepsShape(env, fields, s.row, MarkStarted(at));
    case _ =>
  }

  lemma {:induction false} RunsKeepShape(env: Env, fields: seq<Field>, s: System, actions: seq<Action>)
    requires InjectiveSha(env) && Injective(env.hash) && Inv(env, DirectSession, s)
    requires H.KeysParsed(fields) && ShapeOf(env.sha, fields, s.row) && FlightsValid(fields, s.flights)
    requires AllOfSession(env.sha, fields, actions)
    ensures Inv(env, DirectSession, Runs(env, s, actions))
    ensures ShapeOf(env.sha, fields, Runs(env, s, actions).row) && FlightsValid(fields, Runs(env, s, actions).flights)
    decreases |actions|
  {
    hide H.KeysParsed, ShapeOf, FlightsValid, InjectiveSha, Injective, Next, Generations, DirectRow, AllGrounded,
         Counted;
    if actions != [] {
      assert OfSession(env.sha, fields, actions[0]);
      NextKeepsInv(env, DirectSession, s, actions[0]);
      NextKeepsShape(env, fields, s, actions[0]);
      RunsKeepShape(env, fields, Next(env, s, actions[0]), actions[1..]);
    }
  }

  // The screen

  /** A decoded row of a direct session with these values stored. */
  predicate Readable(record: H.Record, sha: string -> string, fields: seq<Field>, values: map<string, string>,
                     expires: int) {
    && H.HasAttribute(record, SCHEMA, Value.Int(2)) && REFERENCE !in record
    && H.HasAttribute(record, VALUES, Value.Map(H.StrMap(values)))
    && H.HasAttribute(record, H.SCHEMA_HASH, Value.Str(SchemaHash(sha, fields)))
    && H.HasAttribute(record, EXPIRES, Value.Int(expires))
    && (H.HasAttribute(record, STATUS, Value.Str("PREPARED")) || H.HasAttribute(record, STATUS, Value.Str("RESERVED")))
  }

  lemma LookupReadable(sha: string -> string, record: H.Record, now: int, fields: seq<Field>,
                       values: map<string, string>, expires: int, routingKey: string)
    requires ValidValues(fields, values) && Readable(record, sha, fields, values, expires)
             && H.RoutingKey(fields, routingKey)
    ensures H.Lookup(sha, Some(record), now, fields, routingKey)
         == if now < expires then H.Screen(true, "", H.RoutingValue(values, routingKey),
                                           RowsUpTo(fields, Some(values), MAX_FIELDS))
            else H.Unavailable(fields)
  {
    hide Validate, RowsUpTo, H.FindField;
    H.RawOfIsAsJson(values);
  }

  lemma ExpiresHolds(item: Item)
    requires IntAttr(item, EXPIRES).Some?
    ensures H.Holds(item, EXPIRES, Value.Int(IntAttr(item, EXPIRES).value))
  {
  }

  lemma ShapeIsReadable(env: Env, fields: seq<Field>, item: Item, values: map<string, string>)
    requires H.KeysParsed(fields) && ValidValues(fields, values) && Shape(env.sha, fields, item)
             && Stores(env, Some(item), values)
    ensures H.DecodeItem(H.Project(item)).Some?
    ensures Readable(H.DecodeItem(H.Project(item)).value, env.sha, fields, values, IntAttr(item, EXPIRES).value)
  {
    ValuesDecode(fields, values);
    ExpiresHolds(item);
    assert H.Holds(item, VALUES, Value.Map(H.StrMap(values)));
    NoReference(item);
    hide Decode, IntAttr, H.KeysParsed, ValidValues, ValuesAttr, H.Holds, H.Decodable, H.Project, H.DecodeItem,
         SchemaHash, H.PROJECTED;
    H.Projected();
    H.Shown(item, SCHEMA, Value.Int(2));
    H.Shown(item, VALUES, Value.Map(H.StrMap(values)));
    H.Shown(item, H.SCHEMA_HASH, Value.Str(SchemaHash(env.sha, fields)));
    H.Shown(item, EXPIRES, Value.Int(IntAttr(item, EXPIRES).value));
    H.StatusShown(item);
  }

  lemma NoReference(item: Item)
    requires H.Decodable(item) && REFERENCE !in item
    ensures H.DecodeItem(H.Project(item)).Some? && REFERENCE !in H.DecodeItem(H.Project(item)).value
  {
    hide H.PROJECTED, Decode;
  }

  /** Over every interleaving of a direct session, whoever sends a `replace` request for the present row has its
      own values on the agent's screen: every lookup shows exactly these, until the row expires. */
  lemma AttemptsReachScreen(env: Env, decoded: Json.Json, fold: string -> string, actions: seq<Action>, i: nat,
                            now: int, routingKey: string)
    requires InjectiveSha(env) && Injective(env.hash) && Acceptable(decoded, fold)
    requires AllOfSession(env.sha, Parsed(decoded.items), actions) && H.RoutingKey(Parsed(decoded.items), routingKey)
    requires var s := Runs(env, INITIAL, actions);
             i < |s.attempts| && (s.attempts[i].flight < |s.flights|
                                  ==> s.flights[s.attempts[i].flight].generation == s.generation)
    ensures
      var s, fields := Runs(env, INITIAL, actions), Parsed(decoded.items);
      && s.attempts[i].flight < |s.flights| && s.row.Some? && IntAttr(s.row.value, EXPIRES).Some?
      && var values := s.flights[s.attempts[i].flight].values;
         H.ReadAndLookup(env.sha, s.row, now, fields, routingKey)
         == if now < IntAttr(s.row.value, EXPIRES).value then
              H.Screen(true, "", H.RoutingValue(values, routingKey), RowsUpTo(fields, Some(values), MAX_FIELDS))
            else H.Unavailable(fields)
  {
    var s, fields := Runs(env, INITIAL, actions), Parsed(decoded.items);
    H.ParsedKeys(decoded, fold);
    RunsKeepShape(env, fields, INITIAL, actions);
    hide Runs, H.KeysParsed, ValidValues, Stores, H.Lookup, H.DecodeItem, H.Project, Readable, InjectiveSha, Injective,
         Acceptable, Parsed, H.RoutingKey, H.RoutingValue, RowsUpTo, RouteOf, IntAttr, Generations, DirectRow;
    var f := s.flights[s.attempts[i].flight];
    assert Grounded(env, s, f);
    HasRow(env, s.row, f.values);
    var item := s.row.value;
    ShapeIsReadable(env, fields, item, f.values);
    LookupReadable(env.sha, H.DecodeItem(H.Project(item)).value, now, fields, f.values, IntAttr(item, EXPIRES).value,
                   routingKey);
  }

  lemma HasRow(env: Env, row: Row, values: map<string, string>)
    requires Stores(env, row, values)
    ensures row.Some?
  {
  }
}
