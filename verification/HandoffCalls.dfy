/** The Lambda entry points that step a handoff row (lambda/common/bridgefu_handoff.py: `prepare_handoff`,
    `transfer_destination`, `direct_browser_handoff`; lambda/common/aws_runtime.py: `DynamoHandoffStore`,
    `BridgefuRouteClient.replace`), each as one invocation among any number of others. */
module HandoffCalls {
  import opened Wrappers
  import opened DynamoValue
  import opened HandoffRow
  import opened HandoffSystem
  import opened ScreenPop
  import H = Handoff
  import Json

  datatype CallError =
    | InvalidValues | ContextTooLarge | InvalidTtl | InvalidToken | ReplayConflict | StateConflict | BindingInvalid
    | ReplacementInvalid | ReplacementRejected | ReplacementUnavailable | ResponseInvalid | NotPrepared
    | ReservationFailed | DestinationInvalid | DestinationExpired | StoreUnavailable

  /** What one `replace` request was answered. */
  datatype Reply = Accepted | AcceptedBadBody | CallConflict | Rejected | Unreachable

  /** The row-level write each action performs, if any. */
  function EventOf(env: Env, s: System, a: Action): Option<Event> {
    match a
    case Put(record) => Some(Create(record))
    case Direct(token, values, org, call, at) => Some(PrepareDirect(token, values, DirectPrint(env, org, call), at))
    case Start(at) => Some(MarkStarted(at))
    case MarkTransfer(i, now, callId, attachment) =>
      if i < |s.transfers| then Some(MarkReserved(now, callId, attachment)) else None
    case Delete => Some(Expire)
    case _ => None
  }

  function Events(env: Env, s: System, actions: seq<Action>): seq<Event>
    decreases |actions|
  {
    if actions == [] then []
    else
      (match EventOf(env, s, actions[0]) case Some(e) => [e] case None => [])
      + Events(env, Next(env, s, actions[0]), actions[1..])
  }

  /** The whole system acts on the row only through the conditional writes. */
  lemma {:induction false} SystemRefinesRow(env: Env, s: System, actions: seq<Action>)
    ensures Runs(env, s, actions).row == Run(env.hash, s.row, Events(env, s, actions))
    decreases |actions|
  {
    if actions != [] {
      var next := Next(env, s, actions[0]);
      SystemRefinesRow(env, next, actions[1..]);
      var rest := Events(env, next, actions[1..]);
      match EventOf(env, s, actions[0])
      case Some(e) =>
        assert ([e] + rest)[1..] == rest;
        assert next.row == Step(env.hash, s.row, e);
      case None =>
        assert [] + rest == rest;
        assert next.row == s.row;
    }
  }

  lemma {:induction false} RunsAppend(env: Env, s: System, actions: seq<Action>, more: seq<Action>)
    ensures Runs(env, s, actions + more) == Runs(env, Runs(env, s, actions), more)
    decreases |actions|
  {
    if actions == [] {
      assert [] + more == more;
    } else {
      assert (actions + more)[1..] == actions[1..] + more;
      RunsAppend(env, Next(env, s, actions[0]), actions[1..], more);
    }
  }

  predicate NeverSends(actions: seq<Action>, flight: int) {
    forall k :: 0 <= k < |actions| && actions[k].Send? ==> actions[k].flight != flight
  }

  /** Nobody but its own invocation touches a flight. */
  lemma {:induction false} FlightStays(env: Env, s: System, actions: seq<Action>, flight: nat)
    requires flight < |s.flights| && NeverSends(actions, flight)
    ensures flight < |Runs(env, s, actions).flights| && Runs(env, s, actions).flights[flight] == s.flights[flight]
    decreases |actions|
  {
    if actions != [] {
      assert actions[0].Send? ==> actions[0].flight != flight;
      FlightStays(env, Next(env, s, actions[0]), actions[1..], flight);
    }
  }

  function Sends(flight: nat, n: nat): seq<Action> {
    seq(n, _ => Send(flight))
  }

  /** The requests of one direct handoff: the values are stored first, then the leg is replaced at most five
      times, and the row is marked started only last. */
  ghost predicate DirectRun(mine: seq<Action>, store: Action, start: Action, done: bool) {
    || (!done && (mine == [] || mine == [store] || exists f: nat, n: nat ::
      n <= MAX_ATTEMPTS
      && mine == [store] + Sends(f, n)))
    || (exists f: nat, n: nat :: 1 <= n <= MAX_ATTEMPTS && mine == [store] + Sends(f, n) + [start])
  }

  lemma RunForms(store: Action, start: Action, f: nat, n: nat)
    ensures DirectRun([], store, start, false) && DirectRun([store], store, start, false)
    ensures n <= MAX_ATTEMPTS ==> DirectRun([store] + Sends(f, n), store, start, false)
    ensures forall done :: 1 <= n <= MAX_ATTEMPTS ==> DirectRun([store] + Sends(f, n) + [start], store, start, done)
  {
  }

  /** The address handed to Vapi for a reservation, by SIP security mode. */
  function Destination(uri: string, security: string): Option<string> {
    if security == "sips_optional_srtp" || security == "sips_srtp" then
      if "sips:" <= uri && EndsWith(uri, ";transport=tls") then
        Some(if security == "sips_optional_srtp" then "sip:" + uri[5..] else uri)
      else None
    else if security == "sip_rtp" then
      if "sip:" <= uri then Some(uri) else None
    else None
  }

  predicate EndsWith(s: string, suffix: string) {
    |suffix| <= |s| && s[|s| - |suffix|..] == suffix
  }

  predicate IsHex(c: char) {
    'a' <= c <= 'f' || 'A' <= c <= 'F' || '0' <= c <= '9'
  }

  predicate IsUuid(s: string) {
    |s| == 36 && forall i :: 0 <= i < 36 ==> if i in {8, 13, 18, 23} then s[i] == '-' else IsHex(s[i])
  }

  /** One running invocation and the world it shares with the others. */
  class Invocation {
    const env: Env
    var remote: System
    /** Every action so far, of anyone; and those of this invocation. */
    ghost var trace: seq<Action>
    ghost var own: seq<Action>

    ghost predicate Valid()
      reads this
    {
      remote == Runs(env, INITIAL, trace)
    }

    constructor (env: Env)
      ensures Valid() && this.env == env && trace == [] && own == []
    {
      this.env := env;
      remote := INITIAL;
      trace := [];
      own := [];
    }

    /** Anything the other invocations, the cleanup and the expiry of rows may do meanwhile. */
    method Others(flight: int)
      requires Valid()
      modifies this
      ensures Valid() && own == old(own) && old(trace) <= trace
      ensures 0 <= flight < |old(remote).flights| ==>
                flight < |remote.flights| && remote.flights[flight] == old(remote).flights[flight]
    {
      var more: seq<Action> := *;
      if NeverSends(more, flight) {
        RunsAppend(env, INITIAL, trace, more);
        if 0 <= flight < |remote.flights| {
          FlightStays(env, remote, more, flight);
        }
        remote := Runs(env, remote, more);
        trace := trace + more;
      }
    }

    /** One atomic step of this invocation. */
    method Perform(a: Action)
      requires Valid()
      modifies this
      ensures Valid() && remote == Next(env, old(remote), a) && trace == old(trace) + [a] && own == old(own) + [a]
    {
      RunsAppend(env, INITIAL, trace, [a]);
      assert Runs(env, remote, [a]) == Runs(env, Next(env, remote, a), []);
      remote := Next(env, remote, a);
      trace := trace + [a];
      own := own + [a];
    }

    // DynamoHandoffStore

    /** `put_prepared`: "created" if this write found no row, "replayed" if the row read afterwards is the same
        handoff, an error otherwise. A request may be lost before it commits, and its answer after it. */
    method PutPrepared(record: Item) returns (r: Result<Disposition, CallError>)
      requires Valid()
      modifies this
      ensures Valid() && old(trace) <= trace
      ensures own == old(own) + [Put(record)] || (own == old(own) && r == Err(StoreUnavailable))
      ensures r == Ok(CreatedRow) ==> CreatedIn(env, old(trace), trace, record)
      ensures r == Ok(ReplayedRow) ==> ReplayedIn(env, old(trace), trace, record)
      ensures r == Err(ReplayConflict) ==> ConflictIn(env, old(trace), trace, record)
      ensures r.Err? ==> r.error in {ReplayConflict, StoreUnavailable}
    {
      Others(-1);
      var arrives: bool := *;
      if !arrives {
        return Err(StoreUnavailable);
      }
      var absent := remote.row.None?;
      ghost var before := trace;
      Perform(Put(record));
      assert trace[..|before|] == before && trace[|before|] == Put(record);
      var lost: bool := *;
      if lost {
        return Err(StoreUnavailable);
      }
      if absent {
        return Ok(CreatedRow);
      }
      Others(-1);
      assert trace[..|trace|] == trace;
      var unread: bool := *;
      if unread {
        return Err(StoreUnavailable);
      }
      if IsReplay(remote.row, record) {
        return Ok(ReplayedRow);
      }
      return Err(ReplayConflict);
    }

    /** `prepare_direct`: the values are stored under the caller's identity, and the route staged on the row is
        returned. A request may be lost before it commits; a lost answer, or a malformed route, is an error after
        the write. */
    method PrepareDirect(token: string, values: map<string, string>, org: string, call: string, at: int)
      returns (r: Result<nat, CallError>)
      requires Valid()
      modifies this
      ensures Valid() && old(trace) <= trace
      ensures own == old(own) + [Direct(token, values, org, call, at)]
              || (own == old(own) && r == Err(StoreUnavailable))
      ensures r.Ok? ==>
                r.value < |remote.flights| && remote.flights[r.value].sent == 0
                && remote.flights[r.value].values == values
      ensures r.Ok? ==> StoredIn(env, old(trace), trace, Direct(token, values, org, call, at),
                                 remote.flights[r.value].route)
      ensures r.Err? ==> r.error in {StateConflict, BindingInvalid, StoreUnavailable}
    {
      Others(-1);
      var arrives: bool := *;
      if !arrives {
        return Err(StoreUnavailable);
      }
      ghost var before := trace;
      var was := remote;
      var accepted := Accepts(env.hash, remote.row,
                              HandoffRow.PrepareDirect(token, values, DirectPrint(env, org, call), at));
      Perform(Direct(token, values, org, call, at));
      assert trace[..|before|] == before && trace[|before|] == Direct(token, values, org, call, at);
      assert trace[..|before| + 1] == trace;
      var lost: bool := *;
      if lost {
        return Err(StoreUnavailable);
      }
      if !accepted {
        return Err(StateConflict);
      }
      if RouteOf(remote.row.value).None? {
        return Err(BindingInvalid);
      }
      return Ok(|was.flights|);
    }

    method MarkDirectStarted(at: int) returns (r: Result<bool, CallError>)
      requires Valid()
      modifies this
      ensures Valid() && old(trace) <= trace
      ensures own == old(own) + [Start(at)] || (own == old(own) && r == Err(StoreUnavailable))
      ensures r.Ok? ==> TookEffect(env, old(trace), trace, Start(at))
      ensures r.Err? ==> r.error in {StateConflict, StoreUnavailable}
    {
      Others(-1);
      var arrives: bool := *;
      if !arrives {
        return Err(StoreUnavailable);
      }
      var accepted := Accepts(env.hash, remote.row, MarkStarted(at));
      ghost var before := trace;
      Perform(Start(at));
      if accepted {
        EffectNow(env, old(trace), before, trace, Start(at));
      }
      var lost: bool := *;
      return if lost then Err(StoreUnavailable) else if accepted then Ok(true) else Err(StateConflict);
    }

    // BridgefuRouteClient

    /** `replace`: the same request at most five times, again only after the answer that the call is busy. */
    method Replace(flight: nat, route: Route, configured: string)
      returns (r: Result<bool, CallError>, ghost replies: seq<Reply>)
      requires Valid() && flight < |remote.flights| && remote.flights[flight].sent == 0
               && remote.flights[flight].route == route
      modifies this
      ensures Valid() && old(trace) <= trace && own == old(own) + Sends(flight, |replies|) && |replies| <= MAX_ATTEMPTS
      ensures forall k :: 0 <= k < |replies| - 1 ==> replies[k] == CallConflict
      ensures r.Ok? <==> |replies| > 0 && replies[|replies| - 1] == Accepted
      ensures replies == [] <==> route.routeId != configured || !IsUuid(route.callId) || !IsUuid(route.legId)
      ensures |replies| > 0 && replies[|replies| - 1] == CallConflict ==> |replies| == MAX_ATTEMPTS
    {
      replies := [];
      if route.routeId != configured || !IsUuid(route.callId) || !IsUuid(route.legId) {
        assert own == old(own) + Sends(flight, 0);
        return Err(ReplacementInvalid), [];
      }
      for attempt := 0 to MAX_ATTEMPTS
        invariant Valid() && old(trace) <= trace && |replies| == attempt && own == old(own) + Sends(flight, attempt)
        invariant forall k :: 0 <= k < attempt ==> replies[k] == CallConflict
        invariant attempt < MAX_ATTEMPTS
        invariant flight < |remote.flights| && remote.flights[flight].route == route
      {
        Others(flight);
        Perform(Send(flight));
        assert Sends(flight, attempt + 1) == Sends(flight, attempt) + [Send(flight)];
        var reply: Reply := *;
        replies := replies + [reply];
        if reply != CallConflict || attempt == MAX_ATTEMPTS - 1 {
          match reply
          case Accepted => return Ok(true), replies;
          case AcceptedBadBody => return Err(ResponseInvalid), replies;
          case Unreachable => return Err(ReplacementUnavailable), replies;
          case _ => return Err(ReplacementRejected), replies;
        }
      }
    }

    // Entry points

    /** `prepare_handoff` with configured fields. */
    method PrepareHandoff(raw: map<string, Json.Json>, fields: seq<Field>, call: string, correlation: string,
                          callPrint: string, size: map<string, string> -> nat, now: int,
                          ttl: int) returns (r: Result<Disposition, CallError>)
      requires Valid() && H.KeysParsed(fields)
      modifies this
      ensures Valid() && old(trace) <= trace
      ensures r.Ok? ==> Validate(raw, fields).Ok? && 300 <= ttl <= 604800
      ensures Validate(raw, fields).Ok? ==>
                var values := Validate(raw, fields).value;
                var x := H.Facts(correlation, call, SchemaHash(env.sha, fields), callPrint,
                                 env.hash(values[REFERENCE := call]), now, now + ttl);
                && H.Encodable(H.HandoffRecord(values, x))
                && var item := H.EncodeItem(H.HandoffRecord(values, x));
                   && (|| (own == old(own) + [Put(item)] && (r.Ok? || r.error in {ReplayConflict, StoreUnavailable}))
                       || (own == old(own) && r.Err? && r.error != ReplayConflict))
                   && (r == Ok(CreatedRow) ==> CreatedIn(env, old(trace), trace, item))
                   && (r == Ok(ReplayedRow) ==> ReplayedIn(env, old(trace), trace, item))
                   && (r == Err(ReplayConflict) ==> ConflictIn(env, old(trace), trace, item))
      ensures Validate(raw, fields).Err? ==> own == old(own)
    {
      hide Validate, SchemaHash, CreatedIn, ReplayedIn, ConflictIn, H.KeysParsed, H.ValuesFor, H.EncodeItem,
           H.Encodable, H.HandoffRecord;
      var validated := ValidateValues(raw, fields);
      if validated.Err? {
        return Err(InvalidValues);
      }
      var values := validated.value;
      var x := H.Facts(correlation, call, SchemaHash(env.sha, fields), callPrint, env.hash(values[REFERENCE := call]),
                       now, now + ttl);
      H.ValidatedKeys(raw, fields);
      H.RecordEncodes(fields, values, x);
      if size(values[REFERENCE := call]) > MAX_CONTEXT_BYTES {
        return Err(ContextTooLarge);
      }
      if !(300 <= ttl <= 604800) {
        return Err(InvalidTtl);
      }
      r := PutPrepared(H.EncodeItem(H.HandoffRecord(values, x)));
    }

    /** `direct_browser_handoff`; `verified` is the token identifier if the request's token was accepted. */
    method DirectBrowserHandoff(org: string, call: string, raw: map<string, Json.Json>, fields: seq<Field>,
                                verified: Option<string>, configured: string,
                                at: int) returns (r: Result<bool, CallError>)
      requires Valid()
      modifies this
      ensures Valid() && old(trace) <= trace && old(own) <= own
      ensures var mine := own[|old(own)|..];
              if Validate(raw, fields).Err? || verified.None? then mine == [] && r.Err?
              else DirectRun(mine, Direct(verified.value, Validate(raw, fields).value, org, call, at), Start(at), r.Ok?)
      ensures r.Ok? ==> TookEffect(env, old(trace), trace, Start(at))
    {
      hide *;
      ghost var start := Start(at);
      RunForms(start, start, 0, 0);
      assert own[|old(own)|..] == [];
      var validated := ValidateValues(raw, fields);
      if validated.Err? {
        return Err(InvalidValues);
      }
      if verified.None? {
        return Err(InvalidToken);
      }
      ghost var store := Direct(verified.value, validated.value, org, call, at);
      RunForms(store, start, 0, 0);
      var prepared := PrepareDirect(verified.value, validated.value, org, call, at);
      assert own[|old(own)|..] == [store] || (prepared.Err? && own[|old(own)|..] == []);
      if prepared.Err? {
        return Err(prepared.error);
      }
      var flight := prepared.value;
      var replaced, replies := Replace(flight, remote.flights[flight].route, configured);
      RunForms(store, start, flight, |replies|);
      assert own[|old(own)|..] == [store] + Sends(flight, |replies|);
      if replaced.Err? {
        return replaced;
      }
      ghost var before := trace;
      r := MarkDirectStarted(at);
      if r.Ok? {
        EffectSince(env, old(trace), before, trace, start);
      }
      assert own[|old(own)|..] == [store] + Sends(flight, |replies|) + [start]
          || (r.Err? && own[|old(own)|..] == [store] + Sends(flight, |replies|));
    }

    /** `transfer_destination`; the reservation is the environment's answer. */
    method TransferDestination(deployment: string, org: string, call: string, security: string, now: int)
      returns (r: Result<string, CallError>)
      requires Valid()
      modifies this
      ensures Valid() && old(trace) <= trace && old(own) <= own
      ensures var mine := own[|old(own)|..];
              var read := ReadTransfer(deployment, org, call, now);
              || (r.Err? && (mine == [] || mine == [read]))
              || (exists t: nat, callId, expires :: mine == [read, MarkTransfer(t, now, callId, expires)]
                    && Identifier(S(callId)) && expires > now
                    && (r.Ok? ==> TookEffect(env, old(trace), trace, MarkTransfer(t, now, callId, expires))))
      ensures r.Ok? ==> exists uri :: Destination(uri, security) == Some(r.value)
      ensures r.Ok? ==> AllowedIn(env, old(trace), trace, ReadTransfer(deployment, org, call, now))
    {
      hide Runs, Next, Accepts, Step, AllowedIn, Destination, Identifier;
      Others(-1);
      var answered: bool := *;
      if !answered {
        assert own[|old(own)|..] == [];
        return Err(StoreUnavailable);
      }
      ghost var before := trace;
      var was := remote;
      ghost var read := ReadTransfer(deployment, org, call, now);
      Perform(ReadTransfer(deployment, org, call, now));
      assert own[|old(own)|..] == [read];
      if |remote.transfers| <= |was.transfers| {
        return Err(NotPrepared);
      }
      var transfer := |was.transfers|;
      AllowedNow(env, old(trace), before, trace, read);
      ghost var atRead := trace;
      Others(-1);
      AllowedStays(env, old(trace), atRead, trace, read);
      var reserved: bool, uri: string, callId: string, expires: int := *, *, *, *;
      if !reserved {
        return Err(ReservationFailed);
      }
      if Destination(uri, security).None? || !Identifier(S(callId)) {
        return Err(DestinationInvalid);
      }
      if expires <= now {
        return Err(DestinationExpired);
      }
      var arrives: bool := *;
      if !arrives {
        return Err(StoreUnavailable);
      }
      var accepted := transfer < |remote.transfers|
          && Accepts(env.hash, remote.row, MarkReserved(now, callId, expires));
      ghost var beforeMark := trace;
      Perform(MarkTransfer(transfer, now, callId, expires));
      if accepted {
        EffectNow(env, old(trace), beforeMark, trace, MarkTransfer(transfer, now, callId, expires));
      }
      AllowedStays(env, old(trace), atRead, trace, read);
      assert own[|old(own)|..] == [read, MarkTransfer(transfer, now, callId, expires)];
      var lost: bool := *;
      if lost {
        return Err(StoreUnavailable);
      }
      if !accepted {
        return Err(StateConflict);
      }
      return Ok(Destination(uri, security).value);
    }
  }

  // When, in the history, a step took effect

  ghost predicate CreatedIn(env: Env, before: seq<Action>, trace: seq<Action>, record: Item) {
    exists k :: |before| <= k < |trace| && trace[k] == Put(record) && Runs(env, INITIAL, trace[..k]).row.None?
  }

  ghost predicate ReplayedIn(env: Env, before: seq<Action>, trace: seq<Action>, record: Item) {
    exists k :: |before| <= k <= |trace| && IsReplay(Runs(env, INITIAL, trace[..k]).row, record)
  }

  ghost predicate ConflictIn(env: Env, before: seq<Action>, trace: seq<Action>, record: Item) {
    exists k :: |before| <= k <= |trace| && !IsReplay(Runs(env, INITIAL, trace[..k]).row, record)
  }

  ghost predicate StoredIn(env: Env, before: seq<Action>, trace: seq<Action>, a: Action, route: Route) {
    exists k :: |before| <= k < |trace| && trace[k] == a
      && var row := Runs(env, INITIAL, trace[..k + 1]).row;
        row.Some? && CONTENT in row.value
        && RouteOf(row.value) == Some(route)
  }

  /** The row was read as one of this very call, unexpired and prepared. */
  ghost predicate AllowedIn(env: Env, before: seq<Action>, trace: seq<Action>, a: Action) {
    exists k :: |before| <= k < |trace| && trace[k] == a
      && |Next(env, Runs(env, INITIAL, trace[..k]), a).transfers| > |Runs(env, INITIAL, trace[..k]).transfers|
  }

  /** The write of this action met its condition. */
  ghost predicate TookEffect(env: Env, before: seq<Action>, trace: seq<Action>, a: Action) {
    exists k :: |before| <= k < |trace| && trace[k] == a && Effective(env, Runs(env, INITIAL, trace[..k]), a)
  }

  predicate Effective(env: Env, s: System, a: Action) {
    EventOf(env, s, a).Some? && Accepts(env.hash, s.row, EventOf(env, s, a).value)
  }

  lemma EffectNow(env: Env, from: seq<Action>, before: seq<Action>, trace: seq<Action>, a: Action)
    requires from <= before && trace == before + [a] && Effective(env, Runs(env, INITIAL, before), a)
    ensures TookEffect(env, from, trace, a)
  {
    assert trace[|before|] == a && trace[..|before|] == before;
  }

  lemma EffectSince(env: Env, from: seq<Action>, before: seq<Action>, trace: seq<Action>, a: Action)
    requires from <= before && TookEffect(env, before, trace, a)
    ensures TookEffect(env, from, trace, a)
  {
  }

  lemma AllowedNow(env: Env, from: seq<Action>, before: seq<Action>, trace: seq<Action>, a: Action)
    requires from <= before && trace == before + [a]
    requires |Next(env, Runs(env, INITIAL, before), a).transfers| > |Runs(env, INITIAL, before).transfers|
    ensures AllowedIn(env, from, trace, a)
  {
    assert trace[|before|] == a && trace[..|before|] == before;
  }

  lemma AllowedStays(env: Env, before: seq<Action>, trace: seq<Action>, later: seq<Action>, a: Action)
    requires AllowedIn(env, before, trace, a) && trace <= later
    ensures AllowedIn(env, before, later, a)
  {
    var k :| |before| <= k < |trace| && trace[k] == a
      && |Next(env, Runs(env, INITIAL, trace[..k]), a).transfers| > |Runs(env, INITIAL, trace[..k]).transfers|;
    assert later[k] == a && later[..k] == trace[..k];
  }

  // End to end

  predicate NeverDeletes(actions: seq<Action>) {
    forall k :: 0 <= k < |actions| ==> actions[k] != Delete
  }

  /** Stored direct values were validated against fields that cannot be the reserved call reference. */
  predicate DirectValuesLawful(actions: seq<Action>) {
    forall k :: 0 <= k < |actions| && actions[k].Direct? ==> REFERENCE !in actions[k].values
  }

  lemma {:induction false} LawfulEvents(env: Env, s: System, actions: seq<Action>)
    requires NeverDeletes(actions) && DirectValuesLawful(actions)
    ensures NoExpiry(Events(env, s, actions)) && Lawful(Events(env, s, actions))
    decreases |actions|
  {
    if actions != [] {
      assert actions[0] != Delete && (actions[0].Direct? ==> REFERENCE !in actions[0].values);
      LawfulEvents(env, Next(env, s, actions[0]), actions[1..]);
    }
  }

  /** Wherever in the history a preparation created the row, until the row is deleted every lookup shows the
      agent exactly the values that preparation validated. */
  lemma CreatedReachesScreen(env: Env, trace: seq<Action>, k: nat, decoded: Json.Json, fold: string -> string,
                             raw: map<string, Json.Json>, values: map<string, string>, x: H.Facts, now: int,
                             routingKey: string)
    requires Acceptable(decoded, fold)
    requires Validate(raw, Parsed(decoded.items)) == Ok(values)
    requires H.FactsFor(env.sha, env.hash, Parsed(decoded.items), values, x) && H.Encodable(H.HandoffRecord(values, x))
    requires k < |trace| && trace[k] == Put(H.EncodeItem(H.HandoffRecord(values, x)))
    requires Runs(env, INITIAL, trace[..k]).row.None?
    requires NeverDeletes(trace[k + 1..]) && DirectValuesLawful(trace[k + 1..]) && Injective(env.hash)
    requires H.RoutingKey(Parsed(decoded.items), routingKey) && Json.Utf8Length(x.reference) <= 128
    ensures
      var fields := Parsed(decoded.items);
      H.ReadAndLookup(env.sha, Runs(env, INITIAL, trace).row, now, fields, routingKey)
      == if now < x.expires then
           H.Screen(true, x.reference, H.RoutingValue(values, routingKey), RowsUpTo(fields, Some(values), MAX_FIELDS))
         else H.Unavailable(fields)
  {
    var item := H.EncodeItem(H.HandoffRecord(values, x));
    var s := Runs(env, INITIAL, trace[..k]);
    var created := Next(env, s, Put(item));
    var rest := trace[k + 1..];
    var events := Events(env, created, rest);
    LawfulEvents(env, created, rest);
    H.PrepareToScreen(env.sha, env.hash, decoded, fold, raw, values, x, events, now, routingKey);
    hide *;
    CreatedAt(env, trace, k, item);
  }

  lemma CreatedAt(env: Env, trace: seq<Action>, k: nat, item: Item)
    requires k < |trace| && trace[k] == Put(item) && Runs(env, INITIAL, trace[..k]).row.None?
    ensures
      var created := Next(env, Runs(env, INITIAL, trace[..k]), Put(item));
      Runs(env, INITIAL, trace).row == Run(env.hash, None, [Create(item)] + Events(env, created, trace[k + 1..]))
  {
    var s := Runs(env, INITIAL, trace[..k]);
    var created := Next(env, s, Put(item));
    var events := Events(env, created, trace[k + 1..]);
    assert trace == trace[..k] + trace[k..] && trace[k..][1..] == trace[k + 1..];
    RunsAppend(env, INITIAL, trace[..k], trace[k..]);
    assert Runs(env, INITIAL, trace) == Runs(env, created, trace[k + 1..]);
    SystemRefinesRow(env, created, trace[k + 1..]);
    assert ([Create(item)] + events)[1..] == events;
    assert created.row == Step(env.hash, None, Create(item));
  }
}
