/** Concurrent handoffs on one session (lambda/common/bridgefu_handoff.py: `direct_browser_handoff`,
    `transfer_destination`): any number of Lambda invocations, each between its own store steps and requests,
    interleaved in any order, with the row deleted and created anew at any time. */
module HandoffSystem {
  import opened Wrappers
  import opened DynamoValue
  import opened HandoffRow

  /** SHA-256 over text, and the content hash over value maps: arbitrary functions. */
  datatype Env = Env(sha: string -> string, hash: ContentHash)

  /** The arguments of one `replace` request. */
  datatype Route = Route(callId: string, legId: string, routeId: string, idempotencyKey: string)

  /** One `direct_browser_handoff` invocation between its `prepare_direct`, of these values, and its end. */
  datatype Flight = Flight(generation: nat, route: Route, values: map<string, string>, sent: nat)

  /** One `transfer_destination` invocation between its read of the row and `mark_reserved`. */
  datatype Transfer = Transfer(generation: nat)

  /** One `replace` request on the wire, by the invocation that sent it. */
  datatype Attempt = Attempt(flight: nat, route: Route)

  /** `generation` counts deletions of the row; `created` remembers each row as it was created. */
  datatype System = System(
    row: Row,
    generation: nat,
    created: map<nat, Item>,
    flights: seq<Flight>,
    transfers: seq<Transfer>,
    attempts: seq<Attempt>)

  datatype Action =
    | Put(record: Item)
    | Direct(token: string, values: map<string, string>, org: string, call: string, at: int)
    | Send(flight: nat)
    | Start(startedAt: int)
    | ReadTransfer(deployment: string, transferOrg: string, transferCall: string, readAt: int)
    | MarkTransfer(transfer: nat, now: int, callId: string, attachmentExpiresAt: int)
    | Delete

  const MAX_ATTEMPTS := 5

  function DirectPrint(env: Env, org: string, call: string): string {
    env.sha("direct-vapi|" + org + "|" + call)
  }

  function CallPrint(env: Env, deployment: string, org: string, call: string): string {
    env.sha("bridgefu-call|" + deployment + "|" + org + "|" + call)
  }

  ghost predicate IsDirectPrinted(env: Env, item: Item) {
    CALL_PRINT in item && exists org, call :: item[CALL_PRINT] == S(DirectPrint(env, org, call))
  }

  ghost predicate IsCallPrinted(env: Env, item: Item) {
    CALL_PRINT in item && exists dep, org, call :: item[CALL_PRINT] == S(CallPrint(env, dep, org, call))
  }

  ghost predicate InjectiveSha(env: Env) {
    forall a, b :: env.sha(a) == env.sha(b) ==> a == b
  }

  /** The two kinds of fingerprint hash different texts. */
  lemma TextsDiffer(org: string, call: string, dep: string, org2: string, call2: string)
    ensures "direct-vapi|" + org + "|" + call != "bridgefu-call|" + dep + "|" + org2 + "|" + call2
  {
    assert ("direct-vapi|" + org + "|" + call)[0] == 'd';
    assert ("bridgefu-call|" + dep + "|" + org2 + "|" + call2)[0] == 'b';
  }

  lemma PrintsDiffer(env: Env, item: Item)
    requires InjectiveSha(env) && IsDirectPrinted(env, item)
    ensures !IsCallPrinted(env, item)
  {
    var org, call :| item[CALL_PRINT] == S(DirectPrint(env, org, call));
    forall dep, org2, call2 ensures item[CALL_PRINT] != S(CallPrint(env, dep, org2, call2)) {
      TextsDiffer(org, call, dep, org2, call2);
    }
  }

  predicate Alphanumeric(c: char) {
    'a' <= c <= 'z' || 'A' <= c <= 'Z' || '0' <= c <= '9'
  }

  predicate Identifier(a: Attr) {
    && a.S? && 1 <= |a.s| <= 128
    && (forall i :: 0 <= i < |a.s| ==> Alphanumeric(a.s[i]) || a.s[i] == '_' || a.s[i] == '-')
    && (exists i :: 0 <= i < |a.s| && Alphanumeric(a.s[i]))
  }

  /** The route staged on a row, if all four identifiers are well formed. */
  function RouteOf(item: Item): Option<Route> {
    if CALL in item && LEG in item && ROUTE in item && IDEMPOTENCY in item
       && Identifier(item[CALL]) && Identifier(item[LEG]) && Identifier(item[ROUTE]) && Identifier(item[IDEMPOTENCY])
    then Some(Route(item[CALL].s, item[LEG].s, item[ROUTE].s, item[IDEMPOTENCY].s))
    else None
  }

  function Next(env: Env, s: System, a: Action): System {
    match a
    case Put(record) =>
      if s.row.Some? then s else s.(row := Some(record), created := s.created[s.generation := record])
    case Direct(token, values, org, call, at) =>
      var e := PrepareDirect(token, values, DirectPrint(env, org, call), at);
      if !Accepts(env.hash, s.row, e) then s
      else
        var row := Step(env.hash, s.row, e);
        (match RouteOf(row.value)
         case None => s.(row := row)
         case Some(route) => s.(row := row, flights := s.flights + [Flight(s.generation, route, values, 0)]))
    case Send(i) =>
      if i < |s.flights| && s.flights[i].sent < MAX_ATTEMPTS then
        s.(flights := s.flights[i := s.flights[i].(sent := s.flights[i].sent + 1)],
           attempts := s.attempts + [Attempt(i, s.flights[i].route)])
      else s
    case Start(at) => s.(row := Step(env.hash, s.row, MarkStarted(at)))
    case ReadTransfer(deployment, org, call, at) =>
      if s.row.Some? && CALL_PRINT in s.row.value
         && s.row.value[CALL_PRINT] == S(CallPrint(env, deployment, org, call))
         && IntAttr(s.row.value, EXPIRES).Some? && IntAttr(s.row.value, EXPIRES).value > at
         && StatusIn(s.row.value, {PREPARED, RESERVED})
      then s.(transfers := s.transfers + [Transfer(s.generation)])
      else s
    case MarkTransfer(i, now, callId, attachment) =>
      if i < |s.transfers| then s.(row := Step(env.hash, s.row, MarkReserved(now, callId, attachment))) else s
    case Delete => s.(row := None, generation := s.generation + 1)
  }

  function Runs(env: Env, s: System, actions: seq<Action>): System
    decreases |actions|
  {
    if actions == [] then s else Runs(env, Next(env, s, actions[0]), actions[1..])
  }

  const INITIAL := System(None, 0, map[], [], [], [])

  // The records put under one identifier

  /** A row is either created for one direct handoff, by `stage_direct_context` under a random identifier, or by
      the preparations of one telephone call, under an identifier keyed to that call. */
  datatype Kind = DirectSession | TelephoneCall

  /** A staged direct record holds neither a fingerprint nor a content hash; a prepared record holds its call's
      fingerprint. */
  ghost predicate RecordOf(env: Env, kind: Kind, record: Item) {
    match kind
    case DirectSession => CALL_PRINT !in record && CONTENT !in record
    case TelephoneCall => IsCallPrinted(env, record)
  }

  ghost predicate AllOf(env: Env, kind: Kind, actions: seq<Action>) {
    forall i :: 0 <= i < |actions| && actions[i].Put? ==> RecordOf(env, kind, actions[i].record)
  }

  function Sent(attempts: seq<Attempt>, flight: nat): nat {
    if attempts == [] then 0
    else Sent(attempts[..|attempts| - 1], flight) + if attempts[|attempts| - 1].flight == flight then 1 else 0
  }

  /** These values are the ones stored, and the hash of the row is theirs. */
  predicate Stores(env: Env, row: Row, values: map<string, string>) {
    && row.Some?
    && CONTENT in row.value && row.value[CONTENT] == S(env.hash(values))
    && VALUES in row.value && row.value[VALUES] == ValuesAttr(values)
  }

  /** A flight carries the route its row was created with and, while that row exists, the row's values. */
  ghost predicate Grounded(env: Env, s: System, f: Flight) {
    && f.sent <= MAX_ATTEMPTS && f.generation <= s.generation
    && f.generation in s.created && RouteOf(s.created[f.generation]) == Some(f.route)
    && (f.generation == s.generation ==> Stores(env, s.row, f.values))
  }

  ghost predicate AllGrounded(env: Env, s: System) {
    forall i :: 0 <= i < |s.flights| ==> Grounded(env, s, s.flights[i])
  }

  /** The row of a direct session still has the route it was created with, and no telephone call's fingerprint. */
  ghost predicate DirectRow(env: Env, s: System) {
    s.row.Some? ==>
      && s.generation in s.created && RouteOf(s.row.value) == RouteOf(s.created[s.generation])
      && (CALL_PRINT in s.row.value ==> IsDirectPrinted(env, s.row.value))
  }

  predicate Generations(s: System) {
    (forall g :: g in s.created ==> g <= s.generation) && (s.row.None? ==> s.generation !in s.created)
  }

  /** The requests on the wire are those their invocations count. */
  ghost predicate Counted(s: System) {
    && (forall i :: 0 <= i < |s.attempts| ==>
          s.attempts[i].flight < |s.flights| && s.attempts[i].route == s.flights[s.attempts[i].flight].route)
    && (forall f: nat :: f < |s.flights| ==> Sent(s.attempts, f) == s.flights[f].sent)
    && (forall f: nat :: f >= |s.flights| ==> Sent(s.attempts, f) == 0)
  }

  ghost predicate Inv(env: Env, kind: Kind, s: System) {
    match kind
    case DirectSession => s.transfers == [] && Generations(s) && DirectRow(env, s) && AllGrounded(env, s) && Counted(s)
    case TelephoneCall => s.flights == [] && s.attempts == [] && (s.row.Some? ==> IsCallPrinted(env, s.row.value))
  }

  lemma RouteFrame(a: Item, b: Item)
    requires SameAttribute(a, b, CALL) && SameAttribute(a, b, LEG) && SameAttribute(a, b, ROUTE)
    requires SameAttribute(a, b, IDEMPOTENCY)
    ensures RouteOf(a) == RouteOf(b)
  {
  }

  /** What a stored direct preparation leaves behind. */
  lemma DirectStores(env: Env, item: Item, token: string, values: map<string, string>, org: string, call: string,
                     at: int)
    requires InjectiveSha(env)
             && Accepts(env.hash, Some(item), PrepareDirect(token, values, DirectPrint(env, org, call), at))
    ensures
      var row := Step(env.hash, Some(item), PrepareDirect(token, values, DirectPrint(env, org, call), at));
      && row.Some? && IsDirectPrinted(env, row.value) && !IsCallPrinted(env, item)
      && Stores(env, row, values) && RouteOf(row.value) == RouteOf(item)
      && (CONTENT in item ==> item[CONTENT] == S(env.hash(values)))
  {
    hide RouteOf, DirectPrint, CallPrint, ValuesAttr;
    var row := Step(env.hash, Some(item), PrepareDirect(token, values, DirectPrint(env, org, call), at)).value;
    assert row[CALL_PRINT] == S(DirectPrint(env, org, call));
    assert IsDirectPrinted(env, row);
    if CALL_PRINT in item {
      assert IsDirectPrinted(env, item);
      PrintsDiffer(env, item);
    }
    RouteFrame(item, row);
  }

  /** Two sets of values with one hash are one. */
  lemma SameValues(env: Env, row: Item, v: map<string, string>, w: map<string, string>)
    requires Injective(env.hash) && Stores(env, Some(row), v) && row[CONTENT] == S(env.hash(w))
    ensures v == w
  {
  }

  lemma FlightsStayGrounded(env: Env, s: System, t: System, values: map<string, string>)
    requires Injective(env.hash) && AllGrounded(env, s) && s.row.Some? && Stores(env, t.row, values)
    requires CONTENT in s.row.value ==> s.row.value[CONTENT] == S(env.hash(values))
    requires t.generation == s.generation && t.created == s.created && t.flights == s.flights
    ensures AllGrounded(env, t)
  {
    hide RouteOf, Injective;
    forall i | 0 <= i < |t.flights| ensures Grounded(env, t, t.flights[i]) {
      assert Grounded(env, s, s.flights[i]);
      if s.flights[i].generation == s.generation {
        SameValues(env, s.row.value, s.flights[i].values, values);
      }
    }
  }

  lemma OneMoreFlight(env: Env, s: System, f: Flight)
    requires AllGrounded(env, s) && Counted(s) && Grounded(env, s, f) && f.sent == 0
    ensures var t := s.(flights := s.flights + [f]); AllGrounded(env, t) && Counted(t)
  {
    hide RouteOf, Sent, Stores;
    var t := s.(flights := s.flights + [f]);
    forall i | 0 <= i < |t.flights| ensures Grounded(env, t, t.flights[i]) {
      if i < |s.flights| {
        assert Grounded(env, s, s.flights[i]);
      }
    }
  }

  lemma DirectKeepsInv(env: Env, s: System, token: string, values: map<string, string>, org: string, call: string,
                       at: int)
    requires InjectiveSha(env) && Injective(env.hash) && Inv(env, DirectSession, s)
    ensures Inv(env, DirectSession, Next(env, s, Direct(token, values, org, call, at)))
  {
    hide InjectiveSha, Injective, DirectPrint, AllGrounded, Counted, Stores, IsDirectPrinted, Accepts, Step, RouteOf;
    var e := PrepareDirect(token, values, DirectPrint(env, org, call), at);
    if s.row.Some? && Accepts(env.hash, s.row, e) {
      DirectStores(env, s.row.value, token, values, org, call, at);
      var t := s.(row := Step(env.hash, s.row, e));
      FlightsStayGrounded(env, s, t, values);
      CountedRow(s, t);
      if RouteOf(t.row.value).Some? {
        var f := Flight(s.generation, RouteOf(t.row.value).value, values, 0);
        assert Grounded(env, t, f);
        OneMoreFlight(env, t, f);
      }
    } else {
      NothingOnNoRow(env, s, e);
    }
  }

  lemma CountedRow(s: System, t: System)
    requires Counted(s) && t.flights == s.flights && t.attempts == s.attempts
    ensures Counted(t)
  {
  }

  lemma NothingOnNoRow(env: Env, s: System, e: Event)
    requires e.PrepareDirect?
    ensures s.row.None? ==> !Accepts(env.hash, s.row, e)
  {
  }

  lemma SentMore(attempts: seq<Attempt>, a: Attempt, f: nat)
    ensures Sent(attempts + [a], f) == Sent(attempts, f) + if a.flight == f then 1 else 0
  {
    assert (attempts + [a])[..|attempts|] == attempts;
  }

  lemma SendIsCounted(env: Env, s: System, i: nat)
    requires Counted(s) && i < |s.flights| && s.flights[i].sent < MAX_ATTEMPTS
    ensures Counted(Next(env, s, Send(i)))
  {
    var t := Next(env, s, Send(i));
    forall f: nat ensures Sent(t.attempts, f) == Sent(s.attempts, f) + if f == i then 1 else 0 {
      SentMore(s.attempts, t.attempts[|s.attempts|], f);
    }
    hide Sent, Next;
  }

  lemma SendKeepsInv(env: Env, s: System, i: nat)
    requires Inv(env, DirectSession, s)
    ensures Inv(env, DirectSession, Next(env, s, Send(i)))
  {
    hide Counted, Stores, RouteOf, IsDirectPrinted;
    var t := Next(env, s, Send(i));
    if i < |s.flights| && s.flights[i].sent < MAX_ATTEMPTS {
      SendIsCounted(env, s, i);
      forall k | 0 <= k < |t.flights| ensures Grounded(env, t, t.flights[k]) {
        assert Grounded(env, s, s.flights[k]);
      }
    }
  }

  /** A telephone call's fingerprint is never on a direct session's row, so no transfer ever reads one. */
  lemma NoTransfer(env: Env, s: System, deployment: string, org: string, call: string, at: int)
    requires InjectiveSha(env) && Inv(env, DirectSession, s)
    ensures Next(env, s, ReadTransfer(deployment, org, call, at)) == s
  {
    if s.row.Some? && CALL_PRINT in s.row.value {
      PrintsDiffer(env, s.row.value);
      assert !IsCallPrinted(env, s.row.value);
    }
  }

  lemma DirectSessionNext(env: Env, s: System, a: Action)
    requires InjectiveSha(env) && Injective(env.hash) && Inv(env, DirectSession, s)
    requires a.Put? ==> RecordOf(env, DirectSession, a.record)
    ensures Inv(env, DirectSession, Next(env, s, a))
  {
    hide Accepts, InjectiveSha, Injective, IsDirectPrinted, IsCallPrinted;
    var t := Next(env, s, a);
    match a
    case Put(record) =>
      forall i | 0 <= i < |t.flights| ensures Grounded(env, t, t.flights[i]) {
        assert Grounded(env, s, s.flights[i]);
      }
    case Direct(token, values, org, call, at) => DirectKeepsInv(env, s, token, values, org, call, at);
    case Send(i) => SendKeepsInv(env, s, i);
    case Start(at) => StartKeepsInv(env, s, at);
    case ReadTransfer(deployment, org, call, at) => NoTransfer(env, s, deployment, org, call, at);
    case MarkTransfer(_, _, _, _) =>
    case Delete =>
      forall i | 0 <= i < |t.flights| ensures Grounded(env, t, t.flights[i]) {
        assert Grounded(env, s, s.flights[i]);
      }
  }

  lemma StartKeepsInv(env: Env, s: System, at: int)
    requires Inv(env, DirectSession, s)
    ensures Inv(env, DirectSession, Next(env, s, Start(at)))
  {
    var t := Next(env, s, Start(at));
    if s.row.Some? {
      RouteFrame(s.row.value, t.row.value);
    }
    hide RouteOf;
    forall i | 0 <= i < |t.flights| ensures Grounded(env, t, t.flights[i]) {
      assert Grounded(env, s, s.flights[i]);
    }
  }

  /** No direct preparation is accepted on a telephone call's row, whatever its configured fields are called. */
  lemma TelephoneCallNext(env: Env, s: System, a: Action)
    requires InjectiveSha(env) && Inv(env, TelephoneCall, s)
    requires a.Put? ==> RecordOf(env, TelephoneCall, a.record)
    ensures Inv(env, TelephoneCall, Next(env, s, a))
  {
    if a.Direct? && s.row.Some? {
      var e := PrepareDirect(a.token, a.values, DirectPrint(env, a.org, a.call), a.at);
      if Accepts(env.hash, s.row, e) {
        DirectStores(env, s.row.value, a.token, a.values, a.org, a.call, a.at);
        assert false;
      }
    }
  }

  lemma NextKeepsInv(env: Env, kind: Kind, s: System, a: Action)
    requires InjectiveSha(env) && Injective(env.hash) && Inv(env, kind, s)
    requires a.Put? ==> RecordOf(env, kind, a.record)
    ensures Inv(env, kind, Next(env, s, a))
  {
    hide Inv, RecordOf, InjectiveSha, Injective, Next;
    if kind.DirectSession? {
      DirectSessionNext(env, s, a);
    } else {
      TelephoneCallNext(env, s, a);
    }
  }

  lemma {:induction false} RunsKeepInv(env: Env, kind: Kind, s: System, actions: seq<Action>)
    requires InjectiveSha(env) && Injective(env.hash) && Inv(env, kind, s) && AllOf(env, kind, actions)
    ensures Inv(env, kind, Runs(env, s, actions))
    decreases |actions|
  {
    hide Inv, RecordOf, InjectiveSha, Injective, Next;
    if actions != [] {
      NextKeepsInv(env, kind, s, actions[0]);
      RunsKeepInv(env, kind, Next(env, s, actions[0]), actions[1..]);
    }
  }

  /** One `replace` request: its route is the one its row was created with, and while that row exists the row
      holds exactly the values of the invocation that sent it. */
  ghost predicate Staged(env: Env, s: System, a: Attempt) {
    && a.flight < |s.flights|
    && var f := s.flights[a.flight];
       && f.generation in s.created && RouteOf(s.created[f.generation]) == Some(a.route)
       && (f.generation == s.generation ==>
         s.row.Some? && VALUES in s.row.value
         && s.row.value[VALUES] == ValuesAttr(f.values))
  }

  /** Over every interleaving on one row of either kind, deleted and created anew at any time: each `replace`
      request carries the route staged when its row was created, so all requests of all invocations and retries
      on one row are identical; it was sent after its own values were stored, and they stay; no invocation sends
      more than five; and a telephone call's row never causes one. */
  lemma AttemptsAreStaged(env: Env, kind: Kind, actions: seq<Action>)
    requires InjectiveSha(env) && Injective(env.hash) && AllOf(env, kind, actions)
    ensures
      var s := Runs(env, INITIAL, actions);
      && (forall i :: 0 <= i < |s.attempts| ==> Staged(env, s, s.attempts[i]))
      && (forall f: nat :: Sent(s.attempts, f) <= MAX_ATTEMPTS)
      && (kind.TelephoneCall? ==> s.attempts == []) && (kind.DirectSession? ==> s.transfers == [])
  {
    RunsKeepInv(env, kind, INITIAL, actions);
    var s := Runs(env, INITIAL, actions);
    hide Runs, RouteOf;
    if kind.DirectSession? {
      forall i | 0 <= i < |s.attempts| ensures Staged(env, s, s.attempts[i]) {
        assert Grounded(env, s, s.flights[s.attempts[i].flight]);
      }
      forall f: nat ensures Sent(s.attempts, f) <= MAX_ATTEMPTS {
        if f < |s.flights| {
          assert Grounded(env, s, s.flights[f]);
        }
      }
    }
  }
}
