/** One row of the handoff table and the conditional writes that step it (lambda/common/aws_runtime.py:
    `DynamoHandoffStore`; qualification/controller.py: `stage_direct_context`).

    A write is one atomic step of DynamoDB, so any number of concurrent Lambda invocations is an interleaving
    of these steps; deletion by TTL or by cleanup is a step of the environment. Hashes are arbitrary functions
    passed in as parameters; lemmas that need them injective say so. */
module HandoffRow {
  import opened Wrappers
  import opened DynamoValue
  import Decimal

  const STATUS := "handoff_status"
  const CONTENT := "content_hash"
  const CALL_PRINT := "vapi_call_fingerprint"
  const VALUES := "screen_pop_values"
  const SCHEMA := "schema_version"
  const UPDATED := "updated_at"
  const EXPIRES := "expires_at"
  const CALL := "bridgefu_call_id"
  const ATTACHMENT := "attachment_expires_at"
  const TOKEN := "direct_token_id"
  const LEG := "direct_leg_id"
  const ROUTE := "direct_route_id"
  const IDEMPOTENCY := "direct_idempotency_key"
  const REFERENCE := "vapi_call_reference"

  const MAPPED := S("MAPPED")
  const PREPARED := S("PREPARED")
  const RESERVED := S("RESERVED")

  type Row = Option<Item>

  type ContentHash = map<string, string> -> string

  datatype Event =
    | Create(record: Item)
    | MarkReserved(now: int, callId: string, attachmentExpiresAt: int)
    | PrepareDirect(token: string, values: map<string, string>, identity: string, at: int)
    | MarkStarted(startedAt: int)
    | Expire

  function Num(n: int): Attr {
    N(Decimal.Of(n))
  }

  function ValuesAttr(values: map<string, string>): Attr {
    M(map k | k in values :: S(values[k]))
  }

  function IntAttr(item: Item, key: string): Option<int> {
    if key in item && item[key].N? then Decimal.Parse(item[key].text) else None
  }

  predicate StatusIn(item: Item, allowed: set<Attr>) {
    STATUS in item && item[STATUS] in allowed
  }

  /** The condition expression of each write. */
  predicate Accepts(hash: ContentHash, row: Row, e: Event) {
    match e
    case Create(_) => row.None?
    case MarkReserved(_, _, _) => row.Some? && StatusIn(row.value, {PREPARED, RESERVED})
    case PrepareDirect(token, values, identity, at) =>
      && row.Some?
      && TOKEN in row.value && row.value[TOKEN] == S(token)
      && IntAttr(row.value, EXPIRES).Some? && IntAttr(row.value, EXPIRES).value > at
      && StatusIn(row.value, {MAPPED, PREPARED, RESERVED})
      && (CONTENT in row.value ==> row.value[CONTENT] == S(hash(values)))
      && (CALL_PRINT in row.value ==> row.value[CALL_PRINT] == S(identity))
    case MarkStarted(_) => row.Some? && StatusIn(row.value, {PREPARED, RESERVED})
    case Expire => true
  }

  /** The update expression of each write; a write whose condition fails changes nothing. */
  function Step(hash: ContentHash, row: Row, e: Event): Row {
    if !Accepts(hash, row, e) then row
    else
      match e
      case Create(record) => Some(record)
      case MarkReserved(now, callId, attachment) =>
        Some(row.value[STATUS := RESERVED][UPDATED := Num(now)][CALL := S(callId)][ATTACHMENT := Num(attachment)])
      case PrepareDirect(_, values, identity, at) =>
        Some(row.value[STATUS := PREPARED][UPDATED := Num(at)][VALUES := ValuesAttr(values)]
                      [CONTENT := S(hash(values))][CALL_PRINT := S(identity)])
      case MarkStarted(at) => Some(row.value[STATUS := RESERVED][UPDATED := Num(at)])
      case Expire => None
  }

  function Run(hash: ContentHash, row: Row, events: seq<Event>): Row
    decreases |events|
  {
    if events == [] then row else Run(hash, Step(hash, row, events[0]), events[1..])
  }

  predicate NoExpiry(events: seq<Event>) {
    forall i :: 0 <= i < |events| ==> events[i] != Expire
  }

  ghost predicate Injective(hash: ContentHash) {
    forall a, b :: hash(a) == hash(b) ==> a == b
  }

  // What no write can change

  /** Every attribute that no update expression names. */
  predicate Fixed(key: string) {
    key !in {STATUS, UPDATED, CALL, ATTACHMENT, VALUES, CONTENT, CALL_PRINT}
  }

  lemma {:induction false} FixedAttributes(hash: ContentHash, row: Item, events: seq<Event>, key: string)
    requires NoExpiry(events) && Fixed(key)
    ensures Run(hash, Some(row), events).Some?
    ensures key in Run(hash, Some(row), events).value <==> key in row
    ensures key in row ==> Run(hash, Some(row), events).value[key] == row[key]
    decreases |events|
  {
    if events != [] {
      var next := Step(hash, Some(row), events[0]);
      assert events[0] != Expire;
      FixedAttributes(hash, next.value, events[1..], key);
    }
  }

  /** The content hash and the call fingerprint are write-once: under any interleaving, once set they stay as
      they are until the row is deleted. */
  lemma {:induction false} ContentIsWriteOnce(hash: ContentHash, row: Item, events: seq<Event>)
    requires NoExpiry(events)
    ensures
      var end := Run(hash, Some(row), events);
      && end.Some?
      && (CONTENT in row ==> CONTENT in end.value && end.value[CONTENT] == row[CONTENT])
      && (CALL_PRINT in row ==> CALL_PRINT in end.value && end.value[CALL_PRINT] == row[CALL_PRINT])
    decreases |events|
  {
    if events != [] {
      var next := Step(hash, Some(row), events[0]);
      assert events[0] != Expire;
      ContentIsWriteOnce(hash, next.value, events[1..]);
    }
  }

  /** A row never goes back to MAPPED. */
  lemma {:induction false} NeverMappedAgain(hash: ContentHash, row: Item, events: seq<Event>)
    requires NoExpiry(events) && STATUS in row && row[STATUS] != MAPPED
    ensures
      var end := Run(hash, Some(row), events);
      end.Some? && STATUS in end.value && end.value[STATUS] != MAPPED
    decreases |events|
  {
    if events != [] {
      var next := Step(hash, Some(row), events[0]);
      assert events[0] != Expire;
      NeverMappedAgain(hash, next.value, events[1..]);
    }
  }

  /** How far a row has come. */
  function Rank(item: Item): int {
    if StatusIn(item, {MAPPED}) then 0
    else if StatusIn(item, {PREPARED}) then 1
    else if StatusIn(item, {RESERVED}) then 2
    else -1
  }

  /** Exactly one write takes a row back: a direct preparation that is accepted on a reserved one. */
  lemma StatusFallsIff(hash: ContentHash, item: Item, e: Event)
    requires StatusIn(item, {MAPPED, PREPARED, RESERVED}) && e != Expire
    ensures Step(hash, Some(item), e).Some?
    ensures Rank(Step(hash, Some(item), e).value) < Rank(item)
            <==> StatusIn(item, {RESERVED}) && e.PrepareDirect? && Accepts(hash, Some(item), e)
  {
    StatusesDiffer();
    hide MAPPED, PREPARED, RESERVED;
  }

  lemma StatusesDiffer()
    ensures MAPPED != PREPARED && PREPARED != RESERVED && MAPPED != RESERVED
    ensures STATUS !in {UPDATED, CALL, ATTACHMENT, VALUES, CONTENT, CALL_PRINT}
  {
    assert |"MAPPED"| == 6 && |"PREPARED"| == 8 && |"RESERVED"| == 8 && "PREPARED"[0] == 'P';
    assert |STATUS| == 14 && |UPDATED| == 10 && |CALL| == 16 && |ATTACHMENT| == 21 && |VALUES| == 17 && |CONTENT| == 12;
    assert |CALL_PRINT| == 21;
  }

  /** At every step of the run the row is reserved. */
  ghost predicate ReservedThroughout(hash: ContentHash, row: Item, events: seq<Event>)
    requires NoExpiry(events)
  {
    forall k :: 0 <= k <= |events| ==>
      Run(hash, Some(row), events[..k]).Some? && StatusIn(Run(hash, Some(row), events[..k]).value, {RESERVED})
  }

  /** The run has a direct preparation that is accepted where it comes. */
  ghost predicate PreparesAgain(hash: ContentHash, row: Item, events: seq<Event>) {
    exists k :: 0 <= k < |events| && events[k].PrepareDirect?
        && Accepts(hash, Run(hash, Some(row), events[..k]), events[k])
  }

  lemma {:induction false} RunSplit(hash: ContentHash, row: Row, events: seq<Event>, k: nat)
    requires k < |events|
    ensures Run(hash, row, events[..k + 1]) == Step(hash, Run(hash, row, events[..k]), events[k])
    decreases k
  {
    if k == 0 {
      assert events[..1][1..] == [] && events[..1][0] == events[0];
    } else {
      var next := Step(hash, row, events[0]);
      RunSplit(hash, next, events[1..], k - 1);
      assert events[..k + 1][1..] == events[1..][..k] && events[..k][1..] == events[1..][..k - 1];
    }
  }

  /** So, over any interleaving, a reserved row stays reserved all along if and only if no direct preparation is
      accepted on it. */
  lemma ReservedStaysIff(hash: ContentHash, row: Item, events: seq<Event>)
    requires NoExpiry(events) && StatusIn(row, {RESERVED})
    ensures ReservedThroughout(hash, row, events) <==> !PreparesAgain(hash, row, events)
  {
    hide MAPPED, PREPARED, RESERVED, STATUS;
    if ReservedThroughout(hash, row, events) && PreparesAgain(hash, row, events) {
      var k :| 0 <= k < |events| && events[k].PrepareDirect?
          && Accepts(hash, Run(hash, Some(row), events[..k]), events[k]);
      assert StatusIn(Run(hash, Some(row), events[..k + 1]).value, {RESERVED});
      PreparedAgain(hash, row, events, k);
      assert false;
    }
    if !PreparesAgain(hash, row, events) {
      forall k | 0 <= k <= |events|
        ensures Run(hash, Some(row), events[..k]).Some? && StatusIn(Run(hash, Some(row), events[..k]).value, {RESERVED})
      {
        StaysReserved(hash, row, events, k);
      }
    }
  }

  lemma PreparedAgain(hash: ContentHash, row: Item, events: seq<Event>, k: nat)
    requires k < |events| && events[k].PrepareDirect? && Accepts(hash, Run(hash, Some(row), events[..k]), events[k])
    ensures Run(hash, Some(row), events[..k + 1]).Some?
            && !StatusIn(Run(hash, Some(row), events[..k + 1]).value, {RESERVED})
  {
    StatusesDiffer();
    RunSplit(hash, Some(row), events, k);
    hide Run, Accepts;
  }

  lemma {:induction false} StaysReserved(hash: ContentHash, row: Item, events: seq<Event>, k: nat)
    requires NoExpiry(events) && StatusIn(row, {RESERVED}) && !PreparesAgain(hash, row, events) && k <= |events|
    ensures Run(hash, Some(row), events[..k]).Some? && StatusIn(Run(hash, Some(row), events[..k]).value, {RESERVED})
  {
    if k > 0 {
      StaysReserved(hash, row, events, k - 1);
      RunSplit(hash, Some(row), events, k - 1);
      assert events[k - 1] != Expire;
      StatusesDiffer();
      hide Run, MAPPED, PREPARED, RESERVED, STATUS;
    } else {
      assert events[..0] == [];
    }
  }

  /** The content hash of a row accounts for the values it holds: either they are exactly what was hashed, or
      what was hashed holds a call reference, which no validated set of direct values does. */
  ghost predicate Accounted(hash: ContentHash, row: Item) {
    CONTENT in row ==>
      || (exists f: map<string, string> :: REFERENCE in f && row[CONTENT] == S(hash(f)))
      || (exists v: map<string, string> :: row[CONTENT] == S(hash(v)) && VALUES in row && row[VALUES] == ValuesAttr(v))
  }

  /** Direct values are validated against fields none of which may be the reserved call reference. */
  predicate Lawful(events: seq<Event>) {
    forall i :: 0 <= i < |events| && events[i].PrepareDirect? ==> REFERENCE !in events[i].values
  }

  /** So the screen-pop values are write-once too. */
  lemma {:induction false} ValuesAreWriteOnce(hash: ContentHash, row: Item, events: seq<Event>)
    requires Injective(hash) && Accounted(hash, row) && CONTENT in row
    requires NoExpiry(events) && Lawful(events)
    ensures
      var end := Run(hash, Some(row), events);
      && end.Some? && Accounted(hash, end.value)
      && (VALUES in end.value <==> VALUES in row)
      && (VALUES in row ==> end.value[VALUES] == row[VALUES])
    decreases |events|
  {
    if events != [] {
      var e := events[0];
      assert e != Expire;
      var next := Step(hash, Some(row), e);
      if e.PrepareDirect? && Accepts(hash, Some(row), e) {
        assert REFERENCE !in e.values;
        assert row[CONTENT] == S(hash(e.values));
        assert VALUES in row && row[VALUES] == ValuesAttr(e.values);
        assert next.value[VALUES] == row[VALUES];
      } else {
        assert CONTENT in next.value && next.value[CONTENT] == row[CONTENT];
        assert VALUES in next.value <==> VALUES in row;
      }
      ValuesAreWriteOnce(hash, next.value, events[1..]);
    }
  }

  // Concurrent preparation of the same call

  function Created(hash: ContentHash, row: Row, events: seq<Event>): nat
    decreases |events|
  {
    if events == [] then 0
    else (if events[0].Create? && Accepts(hash, row, events[0]) then 1 else 0)
         + Created(hash, Step(hash, row, events[0]), events[1..])
  }

  /** Without a deletion, exactly one of the concurrent preparations of an absent row is told "created", and
      none of an existing one. */
  lemma {:induction false} ExactlyOneCreated(hash: ContentHash, row: Row, events: seq<Event>)
    requires NoExpiry(events)
    ensures Created(hash, row, events)
         == if row.None? && exists i :: 0 <= i < |events| && events[i].Create? then 1 else 0
    decreases |events|
  {
    if events != [] {
      assert events[0] != Expire;
      ExactlyOneCreated(hash, Step(hash, row, events[0]), events[1..]);
      if i :| 0 <= i < |events| && events[i].Create? {
        if i > 0 {
          assert events[1..][i - 1].Create?;
        }
      }
    }
  }

  datatype Disposition = CreatedRow | ReplayedRow

  predicate SameAttribute(a: Item, b: Item, key: string) {
    (key in a <==> key in b) && (key in a ==> a[key] == b[key])
  }

  predicate SameHandoff(a: Item, b: Item) {
    SameAttribute(a, b, SCHEMA) && SameAttribute(a, b, CALL_PRINT) && SameAttribute(a, b, CONTENT)
  }

  /** The comparison a losing `put_prepared` makes with the row it then reads. */
  predicate IsReplay(existing: Row, record: Item) {
    existing.Some? && SameHandoff(existing.value, record) && StatusIn(existing.value, {PREPARED, RESERVED})
  }

  /** Whatever ran in between, a loser is told "replayed" exactly when it carried the winner's content. */
  lemma ReplayedIffSame(hash: ContentHash, winner: Item, events: seq<Event>, record: Item)
    requires NoExpiry(events)
    requires CONTENT in winner && CALL_PRINT in winner && StatusIn(winner, {PREPARED, RESERVED})
    ensures IsReplay(Run(hash, Some(winner), events), record) <==> SameHandoff(winner, record)
  {
    ContentIsWriteOnce(hash, winner, events);
    FixedAttributes(hash, winner, events, SCHEMA);
    StaysActive(hash, winner, events);
  }

  lemma {:induction false} StaysActive(hash: ContentHash, row: Item, events: seq<Event>)
    requires NoExpiry(events) && StatusIn(row, {PREPARED, RESERVED})
    ensures
      var end := Run(hash, Some(row), events);
      end.Some? && StatusIn(end.value, {PREPARED, RESERVED})
    decreases |events|
  {
    if events != [] {
      assert events[0] != Expire;
      StaysActive(hash, Step(hash, Some(row), events[0]).value, events[1..]);
    }
  }
}
