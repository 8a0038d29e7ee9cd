/** The routing compiler and the contact flow it is rendered into (lambda/configuration/handler.py: `_routing`;
    cloudformation/nested/connect.yaml: the wrapper entry flow), with an interpreter for the flow language. */
module Routing {
  import opened Wrappers
  import SP = ScreenPop
  import Decimal
  import H = Handoff
  import HandoffRow
  import Json

  const CUSTOMER := "transfer-to-customer-flow"
  const CHOOSE := "choose-reviewed-route"
  const LOOKUP := "lookup-context"
  const COPY := "copy-context"
  const UNAVAILABLE := "context-unavailable"
  const GUIDE := "set-agent-guide"
  const DISCONNECT := "disconnect"
  /** The routing value a failed lookup leaves behind. */
  const NO_VALUE := "unavailable"
  const MAX_ROUTES := 20

  datatype Route = Route(value: string, flow: string)

  datatype Input = NoRouting | Malformed | Table(fieldKey: string, routes: seq<Route>)

  datatype ConfigurationError =
    | ShapeInvalid | FieldNotChoice | RoutesInvalid | ValueInvalid | ScopeInvalid | NotPublished
    | TooLarge

  // The flow language

  datatype Condition = Condition(next: string, operand: string)

  datatype Action =
    | InvokeLookup(id: string, next: string, onError: string)
    | CopyValue(id: string, next: string, onError: string)
    | SetValue(id: string, value: string, next: string, onError: string)
    | SetGuide(id: string, next: string, onError: string)
    | Compare(id: string, conditions: seq<Condition>, noMatch: string)
    | Transfer(id: string, flow: string, onError: string)
    | Disconnect(id: string)

  datatype Outcome = To(flow: string) | Disconnected | NoSuchAction | Endless

  /** One contact: what the lookup returned, if it did, and which actions fail. */
  datatype Contact = Contact(lookup: Option<string>, fails: string -> bool)

  function Find(flow: seq<Action>, id: string): Option<Action> {
    if flow == [] then None else if flow[0].id == id then Some(flow[0]) else Find(flow[1..], id)
  }

  /** The first condition that holds. */
  function Matched(conditions: seq<Condition>, value: string, noMatch: string): string {
    if conditions == [] then noMatch
    else if conditions[0].operand == value then conditions[0].next
    else Matched(conditions[1..], value, noMatch)
  }

  /** Runs a flow from one of its actions; `value` is the contact's routing attribute. */
  function Run(flow: seq<Action>, c: Contact, id: string, value: string, fuel: nat): Outcome
    decreases fuel
  {
    if fuel == 0 then Endless
    else
      match Find(flow, id)
      case None => NoSuchAction
      case Some(InvokeLookup(_, next, onError)) =>
        Run(flow, c, if c.lookup.Some? && !c.fails(id) then next else onError, value, fuel - 1)
      case Some(CopyValue(_, next, onError)) =>
        if c.lookup.Some? && !c.fails(id) then Run(flow, c, next, c.lookup.value, fuel - 1)
        else Run(flow, c, onError, value, fuel - 1)
      case Some(SetValue(_, v, next, onError)) =>
        if c.fails(id) then Run(flow, c, onError, value, fuel - 1) else Run(flow, c, next, v, fuel - 1)
      case Some(SetGuide(_, next, onError)) => Run(flow, c, if c.fails(id) then onError else next, value, fuel - 1)
      case Some(Compare(_, conditions, noMatch)) => Run(flow, c, Matched(conditions, value, noMatch), value, fuel - 1)
      case Some(Transfer(_, target, onError)) => if c.fails(id) then Run(flow, c, onError, value, fuel - 1)
          else To(target)
      case Some(Disconnect(_)) => Disconnected
  }

  // The compiler

  function RouteId(index: nat): string {
    "transfer-to-route-" + Decimal.Of(index)
  }

  datatype Compiled = Compiled(fieldKey: string, next: string, conditions: seq<Condition>, transfers: seq<Action>)

  function Conditions(routes: seq<Route>): seq<Condition> {
    seq(|routes|, i requires 0 <= i < |routes| => Condition(RouteId(i + 1), routes[i].value))
  }

  function Transfers(routes: seq<Route>): seq<Action> {
    seq(|routes|, i requires 0 <= i < |routes| => Transfer(RouteId(i + 1), routes[i].flow, CUSTOMER))
  }

  predicate RouteOk(field: SP.Field, inScope: string -> bool, r: Route) {
    r.value in field.choices && inScope(r.flow)
  }

  predicate DistinctValues(routes: seq<Route>) {
    forall i, j :: 0 <= i < j < |routes| ==> routes[i].value != routes[j].value
  }

  /** When a routing table is accepted, the publication of its flows and its rendered size aside. */
  predicate Routable(fields: seq<SP.Field>, inScope: string -> bool, t: Input) {
    t.Table? && H.FindField(fields, t.fieldKey).Some? && H.FindField(fields, t.fieldKey).value.choice
    && 1 <= |t.routes| <= MAX_ROUTES && DistinctValues(t.routes)
    && forall r :: r in t.routes ==> RouteOk(H.FindField(fields, t.fieldKey).value, inScope, r)
  }

  function Values(routes: seq<Route>): set<string> {
    set r | r in routes :: r.value
  }

  lemma RoutesMore(routes: seq<Route>, r: Route)
    ensures Conditions(routes + [r]) == Conditions(routes) + [Condition(RouteId(|routes| + 1), r.value)]
    ensures Transfers(routes + [r]) == Transfers(routes) + [Transfer(RouteId(|routes| + 1), r.flow, CUSTOMER)]
    ensures Values(routes + [r]) == Values(routes) + {r.value}
    ensures DistinctValues(routes + [r]) <==> DistinctValues(routes) && r.value !in Values(routes)
  {
    hide RouteId;
    var all := routes + [r];
    assert forall x :: x in all <==> x in routes || x == r;
    if DistinctValues(all) {
      assert forall i :: 0 <= i < |routes| ==> all[i] == routes[i];
      forall x | x in routes ensures x.value != r.value {
        var i :| 0 <= i < |routes| && routes[i] == x;
        assert all[i].value != all[|routes|].value;
      }
    }
  }

  /** `_routing`. Whether a flow is published is the environment's answer. */
  method Compile(fields: seq<SP.Field>, inScope: string -> bool, t: Input, renderedSize: Compiled -> nat)
    returns (r: Result<Compiled, ConfigurationError>)
    ensures t == NoRouting ==> r == Ok(Compiled("", CUSTOMER, [], []))
    ensures r.Ok? && t != NoRouting ==> Routable(fields, inScope, t)
    ensures r.Ok? && t != NoRouting
            ==> r.value == Compiled(t.fieldKey, CHOOSE, Conditions(t.routes), Transfers(t.routes))
    ensures t != NoRouting && Routable(fields, inScope, t) ==>
              r.Ok? || r.error == NotPublished
              || (r.error == TooLarge
                  && renderedSize(Compiled(t.fieldKey, CHOOSE, Conditions(t.routes), Transfers(t.routes))) > 4096)
  {
    if t == NoRouting {
      return Ok(Compiled("", CUSTOMER, [], []));
    }
    if t == Malformed {
      return Err(ShapeInvalid);
    }
    var field := H.FindField(fields, t.fieldKey);
    if field.None? || !field.value.choice {
      return Err(FieldNotChoice);
    }
    if !(1 <= |t.routes| <= MAX_ROUTES) {
      return Err(RoutesInvalid);
    }
    hide RouteId, Conditions, Transfers, Values, DistinctValues;
    var seen: set<string>, conditions: seq<Condition>, actions: seq<Action> := {}, [], [];
    NoRoutesYet();
    for index := 0 to |t.routes|
      invariant DistinctValues(t.routes[..index]) && seen == Values(t.routes[..index])
      invariant forall x :: x in t.routes[..index] ==> RouteOk(field.value, inScope, x)
      invariant conditions == Conditions(t.routes[..index]) && actions == Transfers(t.routes[..index])
    {
      var route := t.routes[index];
      assert t.routes[..index + 1] == t.routes[..index] + [route];
      RoutesMore(t.routes[..index], route);
      if route.value !in field.value.choices || route.value in seen {
        PrefixDistinct(t.routes, index + 1);
        assert route in t.routes;
        return Err(ValueInvalid);
      }
      seen := seen + {route.value};
      if !inScope(route.flow) {
        assert route in t.routes && !RouteOk(field.value, inScope, route);
        return Err(ScopeInvalid);
      }
      var published: bool := *;
      if !published {
        return Err(NotPublished);
      }
      conditions := conditions + [Condition(RouteId(index + 1), route.value)];
      actions := actions + [Transfer(RouteId(index + 1), route.flow, CUSTOMER)];
    }
    assert t.routes[..|t.routes|] == t.routes;
    var compiled := Compiled(t.fieldKey, CHOOSE, conditions, actions);
    return if renderedSize(compiled) > 4096 then Err(TooLarge) else Ok(compiled);
  }

  lemma NoRoutesYet()
    ensures DistinctValues([]) && Values([]) == {} && Conditions([]) == [] && Transfers([]) == []
  {
  }

  lemma PrefixDistinct(routes: seq<Route>, k: nat)
    requires k <= |routes|
    ensures DistinctValues(routes) ==> DistinctValues(routes[..k])
  {
  }

  // The rendered flow

  /** The wrapper entry flow with a compiled routing in it. */
  function EntryFlow(compiled: Compiled, customerFlow: string): seq<Action> {
    [InvokeLookup(LOOKUP, COPY, UNAVAILABLE), CopyValue(COPY, GUIDE, UNAVAILABLE),
     SetValue(UNAVAILABLE, NO_VALUE, GUIDE, CUSTOMER), SetGuide(GUIDE, compiled.next, CUSTOMER)]
    + (if compiled.next == CHOOSE then [Compare(CHOOSE, compiled.conditions, CUSTOMER)] else [])
    + compiled.transfers
    + [Transfer(CUSTOMER, customerFlow, DISCONNECT), Disconnect(DISCONNECT)]
  }

  predicate DistinctActions(flow: seq<Action>) {
    forall i, j :: 0 <= i < j < |flow| ==> flow[i].id != flow[j].id
  }

  /** The fixed identifiers differ by length or letter. */
  lemma FixedIds()
    ensures |LOOKUP| == 14 && |COPY| == 12 && |UNAVAILABLE| == 19 && |GUIDE| == 15 && |CHOOSE| == 21 && |CUSTOMER| == 25
    ensures |DISCONNECT| == 10
    ensures LOOKUP[0] != 't' && COPY[0] != 't' && UNAVAILABLE[0] != 't' && GUIDE[0] != 't' && CHOOSE[0] != 't'
            && DISCONNECT[0] != 't'
    ensures CUSTOMER[0] == 't' && CUSTOMER[12] == 'c'
  {
  }

  lemma RouteIds(i: nat, j: nat)
    ensures |RouteId(i)| > 18 && RouteId(i)[0] == 't' && RouteId(i)[12] == 'r'
    ensures i != j ==> RouteId(i) != RouteId(j)
  {
    assert RouteId(i)[18..] == Decimal.Of(i) && RouteId(j)[18..] == Decimal.Of(j);
    if Decimal.Of(i) == Decimal.Of(j) {
      Decimal.OfIsInjective(i, j);
    }
    Decimal.ParseOf(i);
  }

  lemma {:induction false} FindAt(flow: seq<Action>, i: nat)
    requires i < |flow| && DistinctActions(flow)
    ensures Find(flow, flow[i].id) == Some(flow[i])
  {
    if i > 0 {
      assert flow[0].id != flow[i].id && flow[1..][i - 1] == flow[i];
      FindAt(flow[1..], i - 1);
    }
  }

  lemma DistinctJoin(a: seq<Action>, b: seq<Action>)
    requires DistinctActions(a) && DistinctActions(b)
    requires forall i, j :: 0 <= i < |a| && 0 <= j < |b| ==> a[i].id != b[j].id
    ensures DistinctActions(a + b)
  {
  }

  function Head(next: string, conditions: seq<Condition>): seq<Action> {
    [InvokeLookup(LOOKUP, COPY, UNAVAILABLE), CopyValue(COPY, GUIDE, UNAVAILABLE),
     SetValue(UNAVAILABLE, NO_VALUE, GUIDE, CUSTOMER), SetGuide(GUIDE, next, CUSTOMER)]
    + (if next == CHOOSE then [Compare(CHOOSE, conditions, CUSTOMER)] else [])
  }

  function Last(customerFlow: string): seq<Action> {
    [Transfer(CUSTOMER, customerFlow, DISCONNECT), Disconnect(DISCONNECT)]
  }

  lemma HeadIsDistinct(next: string, conditions: seq<Condition>)
    ensures DistinctActions(Head(next, conditions))
    ensures forall i :: 0 <= i < |Head(next, conditions)| ==>
              Head(next, conditions)[i].id != "" && Head(next, conditions)[i].id[0] != 't'
                  && |Head(next, conditions)[i].id| > 10
  {
    FixedIds();
    hide LOOKUP, COPY, UNAVAILABLE, GUIDE, CHOOSE, CUSTOMER, DISCONNECT;
  }

  lemma LastIsDistinct(customerFlow: string)
    ensures DistinctActions(Last(customerFlow))
    ensures |CUSTOMER| == 25 && CUSTOMER[0] == 't' && CUSTOMER[12] == 'c' && |DISCONNECT| == 10
  {
    FixedIds();
  }

  lemma TransfersAreDistinct(routes: seq<Route>)
    ensures DistinctActions(Transfers(routes))
    ensures forall i :: 0 <= i < |routes| ==>
              |Transfers(routes)[i].id| > 18 && Transfers(routes)[i].id[0] == 't'
              && Transfers(routes)[i].id[12] == 'r'
  {
    forall i, j | 0 <= i < j < |routes| ensures Transfers(routes)[i].id != Transfers(routes)[j].id {
      RouteIds(i + 1, j + 1);
    }
    forall i | 0 <= i < |routes|
      ensures |Transfers(routes)[i].id| > 18 && Transfers(routes)[i].id[0] == 't' && Transfers(routes)[i].id[12] == 'r'
    {
      RouteIds(i + 1, i + 1);
    }
  }

  /** No two actions of a rendered flow share an identifier. */
  lemma FlowIsDistinct(routes: seq<Route>, fieldKey: string, next: string, conditions: seq<Condition>,
                       customerFlow: string)
    ensures DistinctActions(EntryFlow(Compiled(fieldKey, next, conditions, Transfers(routes)), customerFlow))
  {
    HeadIsDistinct(next, conditions);
    LastIsDistinct(customerFlow);
    TransfersAreDistinct(routes);
    var head, mid, last := Head(next, conditions), Transfers(routes), Last(customerFlow);
    assert EntryFlow(Compiled(fieldKey, next, conditions, mid), customerFlow) == head + mid + last;
    assert last[0].id == CUSTOMER && last[1].id == DISCONNECT && |last| == 2;
    hide Head, Transfers, Last, EntryFlow, CUSTOMER, DISCONNECT;
    DistinctJoin(head, mid);
    forall i, j | 0 <= i < |head + mid| && 0 <= j < |last| ensures (head + mid)[i].id != last[j].id {
      assert (head + mid)[i] == if i < |head| then head[i] else mid[i - |head|];
      assert j == 0 || j == 1;
    }
    DistinctJoin(head + mid, last);
  }

  // Meaning

  /** Which route lists a value. */
  function RouteOf(routes: seq<Route>, value: string): (n: Option<nat>)
    ensures n.Some? ==> n.value < |routes| && routes[n.value].value == value
    ensures n.None? ==> forall i :: 0 <= i < |routes| ==> routes[i].value != value
  {
    if routes == [] then None
    else if routes[0].value == value then Some(0)
    else
      var rest := RouteOf(routes[1..], value);
      assert forall i :: 1 <= i < |routes| ==> routes[i] == routes[1..][i - 1];
      if rest.Some? then Some(rest.value + 1) else None
  }

  /** The rest of the routes, as conditions. */
  lemma ConditionsFrom(routes: seq<Route>, k: nat)
    requires k < |routes|
    ensures Conditions(routes)[k..] == [Condition(RouteId(k + 1), routes[k].value)] + Conditions(routes)[k + 1..]
    ensures routes[k..] == [routes[k]] + routes[k + 1..]
  {
    hide RouteId;
  }

  lemma MatchedStep(c: Condition, rest: seq<Condition>, value: string, noMatch: string)
    ensures Matched([c] + rest, value, noMatch) == if c.operand == value then c.next else Matched(rest, value, noMatch)
  {
    assert ([c] + rest)[1..] == rest;
  }

  lemma RouteOfStep(r: Route, rest: seq<Route>, value: string)
    ensures RouteOf([r] + rest, value)
         == if r.value == value then Some(0)
            else if RouteOf(rest, value).Some? then Some(RouteOf(rest, value).value + 1) else None
  {
    assert ([r] + rest)[1..] == rest;
  }

  lemma NothingMatches(value: string, k: nat)
    ensures MatchesRoutes([], [], value, k)
  {
  }

  /** The conditions of the routes numbered from `k + 1` on lead where the first of these routes with the value is. */
  predicate MatchesRoutes(conditions: seq<Condition>, routes: seq<Route>, value: string, k: nat) {
    Matched(conditions, value, CUSTOMER)
    == if RouteOf(routes, value).Some? then RouteId(k + RouteOf(routes, value).value + 1) else CUSTOMER
  }

  lemma OneMoreRoute(condition: Condition, conditions: seq<Condition>, r: Route, routes: seq<Route>, value: string,
                     k: nat)
    requires condition == Condition(RouteId(k + 1), r.value) && MatchesRoutes(conditions, routes, value, k + 1)
    ensures MatchesRoutes([condition] + conditions, [r] + routes, value, k)
  {
    hide RouteId, Matched, RouteOf, CUSTOMER;
    MatchedStep(condition, conditions, value, CUSTOMER);
    RouteOfStep(r, routes, value);
  }

  lemma {:induction false} MatchedFrom(routes: seq<Route>, value: string, k: nat)
    requires k <= |routes|
    ensures k <= |Conditions(routes)| && MatchesRoutes(Conditions(routes)[k..], routes[k..], value, k)
    decreases |routes| - k
  {
    hide RouteId, Matched, RouteOf, CUSTOMER, MatchesRoutes;
    if k < |routes| {
      MatchedFrom(routes, value, k + 1);
      ConditionsFrom(routes, k);
      OneMoreRoute(Condition(RouteId(k + 1), routes[k].value), Conditions(routes)[k + 1..], routes[k], routes[k + 1..],
                   value, k);
    } else {
      NothingMatches(value, k);
      assert routes[k..] == [] && Conditions(routes)[k..] == [];
    }
  }

  /** The value the flow decides on: the lookup's, or the one a failed lookup leaves. */
  function RoutingValue(c: Contact): string {
    if c.lookup.Some? && !c.fails(LOOKUP) && !c.fails(COPY) then c.lookup.value else NO_VALUE
  }

  /** A step before the decision failed, which sends the contact straight to the customer's flow. */
  predicate Straight(c: Contact) {
    c.fails(GUIDE) || ((c.lookup.None? || c.fails(LOOKUP) || c.fails(COPY)) && c.fails(UNAVAILABLE))
  }

  function ToCustomer(c: Contact, customerFlow: string): Outcome {
    if c.fails(CUSTOMER) then Disconnected else To(customerFlow)
  }

  /** What the routing table says should happen to a contact. */
  function Meaning(routes: seq<Route>, customerFlow: string, c: Contact): Outcome {
    var route := RouteOf(routes, RoutingValue(c));
    if Straight(c) || route.None? || c.fails(RouteId(route.value + 1)) then ToCustomer(c, customerFlow)
    else To(routes[route.value].flow)
  }

  /** Enough steps for any path through the flow. */
  const STEPS := 8

  /** Actions of a flow, found by their identifiers. */
  predicate Has(flow: seq<Action>, a: Action) {
    Find(flow, a.id) == Some(a)
  }

  lemma EntryActions(compiled: Compiled, customerFlow: string)
    requires DistinctActions(EntryFlow(compiled, customerFlow))
    ensures
      var flow := EntryFlow(compiled, customerFlow);
      && Has(flow, InvokeLookup(LOOKUP, COPY, UNAVAILABLE)) && Has(flow, CopyValue(COPY, GUIDE, UNAVAILABLE))
      && Has(flow, SetValue(UNAVAILABLE, NO_VALUE, GUIDE, CUSTOMER))
          && Has(flow, SetGuide(GUIDE, compiled.next, CUSTOMER))
      && (compiled.next == CHOOSE ==> Has(flow, Compare(CHOOSE, compiled.conditions, CUSTOMER)))
      && (forall i :: 0 <= i < |compiled.transfers| ==> Has(flow, compiled.transfers[i]))
      && Has(flow, Transfer(CUSTOMER, customerFlow, DISCONNECT)) && Has(flow, Disconnect(DISCONNECT))
  {
    var flow := EntryFlow(compiled, customerFlow);
    hide DistinctActions, Find;
    forall i | 0 <= i < |flow| ensures Has(flow, flow[i]) {
      FindAt(flow, i);
    }
    var k := if compiled.next == CHOOSE then 5 else 4;
    forall i | 0 <= i < |compiled.transfers| ensures Has(flow, compiled.transfers[i]) {
      assert flow[k + i] == compiled.transfers[i];
    }
    assert flow[|flow| - 2] == Transfer(CUSTOMER, customerFlow, DISCONNECT)
           && flow[|flow| - 1] == Disconnect(DISCONNECT);
    assert compiled.next == CHOOSE ==> flow[4] == Compare(CHOOSE, compiled.conditions, CUSTOMER);
    assert flow[0] == InvokeLookup(LOOKUP, COPY, UNAVAILABLE) && flow[1] == CopyValue(COPY, GUIDE, UNAVAILABLE);
    assert flow[2] == SetValue(UNAVAILABLE, NO_VALUE, GUIDE, CUSTOMER)
           && flow[3] == SetGuide(GUIDE, compiled.next, CUSTOMER);
  }

  /** From the customer's transfer on. */
  lemma CustomerStep(flow: seq<Action>, c: Contact, customerFlow: string, value: string, fuel: nat)
    requires Has(flow, Transfer(CUSTOMER, customerFlow, DISCONNECT)) && Has(flow, Disconnect(DISCONNECT)) && fuel >= 2
    ensures Run(flow, c, CUSTOMER, value, fuel) == ToCustomer(c, customerFlow)
  {
    hide Find;
  }

  /** From the decision on. */
  lemma DecisionStep(flow: seq<Action>, c: Contact, routes: seq<Route>, customerFlow: string, value: string, fuel: nat)
    requires Has(flow, Transfer(CUSTOMER, customerFlow, DISCONNECT)) && Has(flow, Disconnect(DISCONNECT)) && fuel >= 4
    requires Has(flow, Compare(CHOOSE, Conditions(routes), CUSTOMER))
    requires forall i :: 0 <= i < |routes| ==> Has(flow, Transfer(RouteId(i + 1), routes[i].flow, CUSTOMER))
    ensures Run(flow, c, CHOOSE, value, fuel)
         == var route := RouteOf(routes, value);
            if route.None? || c.fails(RouteId(route.value + 1)) then ToCustomer(c, customerFlow)
                else To(routes[route.value].flow)
  {
    MatchedFrom(routes, value, 0);
    assert routes[0..] == routes && Conditions(routes)[0..] == Conditions(routes);
    hide Find, Matched, Conditions, RouteOf, RouteId, ToCustomer, Values;
    var route := RouteOf(routes, value);
    CompareStep(flow, c, Conditions(routes), value, fuel);
    hide Run, Has, CUSTOMER, CHOOSE, DISCONNECT;
    assert Run(flow, c, CHOOSE, value, fuel) == Run(flow, c, Matched(Conditions(routes), value, CUSTOMER), value,
                                                    fuel - 1);
    if route.None? {
      CustomerStep(flow, c, customerFlow, value, fuel - 1);
    } else {
      RouteStep(flow, c, RouteId(route.value + 1), routes[route.value].flow, customerFlow, value, fuel - 1);
    }
  }

  lemma CompareStep(flow: seq<Action>, c: Contact, conditions: seq<Condition>, value: string, fuel: nat)
    requires Has(flow, Compare(CHOOSE, conditions, CUSTOMER)) && fuel >= 1
    ensures Run(flow, c, CHOOSE, value, fuel) == Run(flow, c, Matched(conditions, value, CUSTOMER), value, fuel - 1)
  {
    hide Find, Matched;
  }

  lemma RouteStep(flow: seq<Action>, c: Contact, id: string, target: string, customerFlow: string, value: string,
                  fuel: nat)
    requires Has(flow, Transfer(id, target, CUSTOMER)) && fuel >= 3
    requires Has(flow, Transfer(CUSTOMER, customerFlow, DISCONNECT)) && Has(flow, Disconnect(DISCONNECT))
    ensures Run(flow, c, id, value, fuel) == if c.fails(id) then ToCustomer(c, customerFlow) else To(target)
  {
    hide Find, ToCustomer;
    CustomerStep(flow, c, customerFlow, value, fuel - 1);
  }

  /** The steps before the decision, whatever follows them. */
  lemma LeadIn(flow: seq<Action>, c: Contact, next: string, customerFlow: string, value: string, fuel: nat)
    requires Has(flow, InvokeLookup(LOOKUP, COPY, UNAVAILABLE)) && Has(flow, CopyValue(COPY, GUIDE, UNAVAILABLE))
    requires Has(flow, SetValue(UNAVAILABLE, NO_VALUE, GUIDE, CUSTOMER)) && Has(flow, SetGuide(GUIDE, next, CUSTOMER))
    requires Has(flow, Transfer(CUSTOMER, customerFlow, DISCONNECT)) && Has(flow, Disconnect(DISCONNECT))
             && fuel >= STEPS
    ensures Straight(c) ==> Run(flow, c, LOOKUP, value, fuel) == ToCustomer(c, customerFlow)
    ensures !Straight(c) ==> exists left: nat ::
              4 <= left
              && Run(flow, c, LOOKUP, value, fuel) == Run(flow, c, next, RoutingValue(c), left)
  {
    hide Find, ToCustomer;
    if c.lookup.None? || c.fails(LOOKUP) {
      assert Run(flow, c, LOOKUP, value, fuel) == Run(flow, c, UNAVAILABLE, value, fuel - 1);
      UnavailableStep(flow, c, next, customerFlow, value, fuel - 1);
      GuideStep(flow, c, next, customerFlow, NO_VALUE, fuel - 2);
      assert !Straight(c) ==> Run(flow, c, LOOKUP, value, fuel) == Run(flow, c, next, RoutingValue(c), fuel - 3);
    } else {
      assert Run(flow, c, LOOKUP, value, fuel) == Run(flow, c, COPY, value, fuel - 1);
      if c.fails(COPY) {
        assert Run(flow, c, COPY, value, fuel - 1) == Run(flow, c, UNAVAILABLE, value, fuel - 2);
        UnavailableStep(flow, c, next, customerFlow, value, fuel - 2);
        GuideStep(flow, c, next, customerFlow, NO_VALUE, fuel - 3);
        assert !Straight(c) ==> Run(flow, c, LOOKUP, value, fuel) == Run(flow, c, next, RoutingValue(c), fuel - 4);
      } else {
        assert Run(flow, c, COPY, value, fuel - 1) == Run(flow, c, GUIDE, c.lookup.value, fuel - 2);
        GuideStep(flow, c, next, customerFlow, c.lookup.value, fuel - 2);
        assert !Straight(c) ==> Run(flow, c, LOOKUP, value, fuel) == Run(flow, c, next, RoutingValue(c), fuel - 3);
      }
    }
  }

  lemma GuideStep(flow: seq<Action>, c: Contact, next: string, customerFlow: string, value: string, fuel: nat)
    requires Has(flow, SetGuide(GUIDE, next, CUSTOMER)) && fuel >= 3
    requires Has(flow, Transfer(CUSTOMER, customerFlow, DISCONNECT)) && Has(flow, Disconnect(DISCONNECT))
    ensures Run(flow, c, GUIDE, value, fuel) == if c.fails(GUIDE) then ToCustomer(c, customerFlow)
            else Run(flow, c, next, value, fuel - 1)
  {
    CustomerStep(flow, c, customerFlow, value, fuel - 1);
    hide Find, ToCustomer;
  }

  lemma UnavailableStep(flow: seq<Action>, c: Contact, next: string, customerFlow: string, value: string, fuel: nat)
    requires Has(flow, SetValue(UNAVAILABLE, NO_VALUE, GUIDE, CUSTOMER)) && fuel >= 4
    requires Has(flow, Transfer(CUSTOMER, customerFlow, DISCONNECT)) && Has(flow, Disconnect(DISCONNECT))
    ensures Run(flow, c, UNAVAILABLE, value, fuel)
         == if c.fails(UNAVAILABLE) then ToCustomer(c, customerFlow) else Run(flow, c, GUIDE, NO_VALUE, fuel - 1)
  {
    CustomerStep(flow, c, customerFlow, value, fuel - 1);
    hide Find, ToCustomer;
  }

  lemma RoutedActions(routes: seq<Route>, fieldKey: string, customerFlow: string)
    ensures
      var flow := EntryFlow(Compiled(fieldKey, CHOOSE, Conditions(routes), Transfers(routes)), customerFlow);
      && Has(flow, InvokeLookup(LOOKUP, COPY, UNAVAILABLE)) && Has(flow, CopyValue(COPY, GUIDE, UNAVAILABLE))
      && Has(flow, SetValue(UNAVAILABLE, NO_VALUE, GUIDE, CUSTOMER)) && Has(flow, SetGuide(GUIDE, CHOOSE, CUSTOMER))
      && Has(flow, Compare(CHOOSE, Conditions(routes), CUSTOMER))
      && (forall i :: 0 <= i < |routes| ==> Has(flow, Transfer(RouteId(i + 1), routes[i].flow, CUSTOMER)))
      && Has(flow, Transfer(CUSTOMER, customerFlow, DISCONNECT)) && Has(flow, Disconnect(DISCONNECT))
  {
    hide EntryFlow, Has, RouteId, DistinctActions, Conditions;
    FlowIsDistinct(routes, fieldKey, CHOOSE, Conditions(routes), customerFlow);
    EntryActions(Compiled(fieldKey, CHOOSE, Conditions(routes), Transfers(routes)), customerFlow);
    forall i | 0 <= i < |routes|
      ensures Has(EntryFlow(Compiled(fieldKey, CHOOSE, Conditions(routes), Transfers(routes)), customerFlow),
                  Transfer(RouteId(i + 1), routes[i].flow, CUSTOMER))
    {
      assert Transfers(routes)[i] == Transfer(RouteId(i + 1), routes[i].flow, CUSTOMER);
    }
  }

  /** Compilation preserves meaning: on every contact the rendered flow does what the table says. */
  lemma CompiledMeaning(routes: seq<Route>, fieldKey: string, customerFlow: string, c: Contact, value: string,
                        fuel: nat)
    requires fuel >= STEPS
    ensures Run(EntryFlow(Compiled(fieldKey, CHOOSE, Conditions(routes), Transfers(routes)), customerFlow), c, LOOKUP,
                value, fuel)
         == Meaning(routes, customerFlow, c)
  {
    hide EntryFlow, Has, Run, ToCustomer, Conditions, Transfers, RouteId, Straight, RoutingValue, RouteOf;
    var flow := EntryFlow(Compiled(fieldKey, CHOOSE, Conditions(routes), Transfers(routes)), customerFlow);
    RoutedActions(routes, fieldKey, customerFlow);
    LeadIn(flow, c, CHOOSE, customerFlow, value, fuel);
    if !Straight(c) {
      var left: nat :| 4 <= left && Run(flow, c, LOOKUP, value, fuel) == Run(flow, c, CHOOSE, RoutingValue(c), left);
      DecisionStep(flow, c, routes, customerFlow, RoutingValue(c), left);
    }
  }

  /** Without a routing table every contact goes to the customer's flow. */
  lemma UnroutedMeaning(customerFlow: string, c: Contact, value: string, fuel: nat)
    requires fuel >= STEPS
    ensures Run(EntryFlow(Compiled("", CUSTOMER, [], []), customerFlow), c, LOOKUP, value, fuel) == ToCustomer(c,
          customerFlow)
  {
    assert Transfers([]) == [];
    var flow := EntryFlow(Compiled("", CUSTOMER, [], []), customerFlow);
    hide EntryFlow, Has, Run, ToCustomer, Straight, RoutingValue, DistinctActions;
    FlowIsDistinct([], "", CUSTOMER, [], customerFlow);
    EntryActions(Compiled("", CUSTOMER, [], []), customerFlow);
    LeadIn(flow, c, CUSTOMER, customerFlow, value, fuel);
    if !Straight(c) {
      var left: nat :| 4 <= left && Run(flow, c, LOOKUP, value, fuel) == Run(flow, c, CUSTOMER, RoutingValue(c), left);
      CustomerStep(flow, c, customerFlow, RoutingValue(c), left);
    }
  }

  // Lookup results

  lemma ChoicesAreNotEmpty(decoded: Json.Json, fold: string -> string, key: string)
    requires SP.Acceptable(decoded, fold)
    requires H.FindField(SP.Parsed(decoded.items), key).Some? && H.FindField(SP.Parsed(decoded.items), key).value.choice
    ensures "" !in H.FindField(SP.Parsed(decoded.items), key).value.choices
  {
    hide SP.ParseItem;
    var f := FoundField(SP.Parsed(decoded.items), key);
    ItemChoices(decoded.items[f]);
  }

  lemma ItemChoices(item: Json.Json)
    requires SP.ParseItem(item).Ok?
    ensures "" !in SP.ParseItem(item).value.choices
  {
  }

  lemma {:induction false} FoundField(fields: seq<SP.Field>, key: string) returns (i: nat)
    requires H.FindField(fields, key).Some?
    ensures i < |fields| && fields[i] == H.FindField(fields, key).value && fields[i].key == key
  {
    if fields[0].key == key {
      i := 0;
    } else {
      i := FoundField(fields[1..], key);
      i := i + 1;
    }
  }

  /** The flow an accepted table is rendered as. */
  function TableFlow(t: Input, customerFlow: string): seq<Action>
    requires t.Table?
  {
    EntryFlow(Compiled(t.fieldKey, CHOOSE, Conditions(t.routes), Transfers(t.routes)), customerFlow)
  }

  /** Where a routing value is listed, and the customer's flow if it is nowhere. */
  predicate IsDestination(routes: seq<Route>, customerFlow: string, value: string, end: Outcome) {
    && (forall i :: 0 <= i < |routes| && routes[i].value == value ==> end == To(routes[i].flow))
    && ((forall i :: 0 <= i < |routes| ==> routes[i].value != value) ==> end == To(customerFlow))
  }

  lemma MeaningIsDestination(routes: seq<Route>, customerFlow: string, c: Contact)
    requires DistinctValues(routes) && c.lookup.Some? && forall id :: !c.fails(id)
    ensures IsDestination(routes, customerFlow, c.lookup.value, Meaning(routes, customerFlow, c))
  {
    forall i | 0 <= i < |routes| && routes[i].value == c.lookup.value
      ensures Meaning(routes, customerFlow, c) == To(routes[i].flow)
    {
      EveryRouteIsReached(routes, customerFlow, c, i);
    }
    hide RouteId, LOOKUP, COPY, GUIDE, UNAVAILABLE, CUSTOMER;
  }

  /** Composed with the lookup: the rendered flow of an accepted table, on a contact whose lookup answers, ends
      where the table lists the routing value of the screen; an unavailable screen and an empty optional choice
      go to the customer's flow. */
  lemma LookupIsRouted(decoded: Json.Json, fold: string -> string, inScope: string -> bool, t: Input,
                       customerFlow: string, sha: string -> string, row: HandoffRow.Row, now: int, c: Contact,
                       value: string, fuel: nat)
    requires SP.Acceptable(decoded, fold) && Routable(SP.Parsed(decoded.items), inScope, t) && fuel >= STEPS
    requires c.lookup == Some(H.ReadAndLookup(sha, row, now, SP.Parsed(decoded.items), t.fieldKey).routingValue)
    requires forall id :: !c.fails(id)
    ensures
      var screen := H.ReadAndLookup(sha, row, now, SP.Parsed(decoded.items), t.fieldKey);
      var end := Run(TableFlow(t, customerFlow), c, LOOKUP, value, fuel);
      && IsDestination(t.routes, customerFlow, screen.routingValue, end)
      && (!screen.available || screen.routingValue == "" ==> end == To(customerFlow))
  {
    CompiledMeaning(t.routes, t.fieldKey, customerFlow, c, value, fuel);
    MeaningIsDestination(t.routes, customerFlow, c);
    ChoicesAreNotEmpty(decoded, fold, t.fieldKey);
    UnavailableIsEmpty(sha, row, now, SP.Parsed(decoded.items), t.fieldKey);
    hide EntryFlow, Run, Meaning, Conditions, Transfers, H.ReadAndLookup, SP.Acceptable, DistinctValues, SP.ParseItem;
    forall i | 0 <= i < |t.routes| ensures t.routes[i].value != "" {
      assert RouteOk(H.FindField(SP.Parsed(decoded.items), t.fieldKey).value, inScope, t.routes[i]);
    }
  }

  lemma UnavailableIsEmpty(sha: string -> string, row: HandoffRow.Row, now: int, fields: seq<SP.Field>, key: string)
    ensures !H.ReadAndLookup(sha, row, now, fields, key).available
            ==> H.ReadAndLookup(sha, row, now, fields, key).routingValue == ""
  {
    hide SP.Validate, SP.RowsUpTo, H.DecodeItem, H.Project, H.IsCurrentSchema, H.DisplaysOnly, H.FlatRaw, H.Live,
         Json.Utf8Length, H.FindField;
  }

  /** From the tool call to the queue: a contact whose handoff was created goes, until the row expires, where
      the table lists the value its caller chose, and afterwards to the customer's flow. */
  lemma PreparedIsRouted(decoded: Json.Json, fold: string -> string, inScope: string -> bool, t: Input,
                         customerFlow: string, sha: string -> string, hash: HandoffRow.ContentHash,
                         raw: map<string, Json.Json>,
                         values: map<string, string>, x: H.Facts, events: seq<HandoffRow.Event>, now: int, c: Contact,
                         value: string, fuel: nat)
    requires SP.Acceptable(decoded, fold) && Routable(SP.Parsed(decoded.items), inScope, t) && fuel >= STEPS
    requires SP.Validate(raw, SP.Parsed(decoded.items)) == Ok(values)
    requires H.FactsFor(sha, hash, SP.Parsed(decoded.items), values, x) && Json.Utf8Length(x.reference) <= 128
    requires HandoffRow.Injective(hash) && HandoffRow.NoExpiry(events) && HandoffRow.Lawful(events)
    requires forall id :: !c.fails(id)
    ensures H.Encodable(H.HandoffRecord(values, x)) && t.fieldKey in values
    ensures
      var row := HandoffRow.Run(hash, None, [HandoffRow.Create(H.EncodeItem(H.HandoffRecord(values, x)))] + events);
      var end := Run(TableFlow(t, customerFlow), c, LOOKUP, value, fuel);
      c.lookup == Some(H.ReadAndLookup(sha, row, now, SP.Parsed(decoded.items), t.fieldKey).routingValue) ==>
        if now < x.expires then IsDestination(t.routes, customerFlow, values[t.fieldKey], end)
            else end == To(customerFlow)
  {
    PreparedValue(decoded, fold, t.fieldKey, sha, hash, raw, values, x, events, now);
    var row := HandoffRow.Run(hash, None, [HandoffRow.Create(H.EncodeItem(H.HandoffRecord(values, x)))] + events);
    hide *;
    if c.lookup == Some(H.ReadAndLookup(sha, row, now, SP.Parsed(decoded.items), t.fieldKey).routingValue) {
      LookupIsRouted(decoded, fold, inScope, t, customerFlow, sha, row, now, c, value, fuel);
    }
  }

  /** The routing value of a created handoff is the value its caller chose, until the row expires. */
  lemma PreparedValue(decoded: Json.Json, fold: string -> string, key: string, sha: string -> string,
                      hash: HandoffRow.ContentHash, raw: map<string, Json.Json>, values: map<string, string>,
                      x: H.Facts, events: seq<HandoffRow.Event>, now: int)
    requires SP.Acceptable(decoded, fold)
    requires H.FindField(SP.Parsed(decoded.items), key).Some? && H.FindField(SP.Parsed(decoded.items), key).value.choice
    requires SP.Validate(raw, SP.Parsed(decoded.items)) == Ok(values)
    requires H.FactsFor(sha, hash, SP.Parsed(decoded.items), values, x) && Json.Utf8Length(x.reference) <= 128
    requires HandoffRow.Injective(hash) && HandoffRow.NoExpiry(events) && HandoffRow.Lawful(events)
    ensures H.Encodable(H.HandoffRecord(values, x)) && key in values
    ensures
      var row := HandoffRow.Run(hash, None, [HandoffRow.Create(H.EncodeItem(H.HandoffRecord(values, x)))] + events);
      var screen := H.ReadAndLookup(sha, row, now, SP.Parsed(decoded.items), key);
      screen.available == (now < x.expires) && screen.routingValue == if now < x.expires then values[key] else ""
  {
    var fields := SP.Parsed(decoded.items);
    hide *;
    ChosenKey(decoded, fold, key, raw, values);
    KeyRoutes(fields, values, key);
    H.PrepareToScreen(sha, hash, decoded, fold, raw, values, x, events, now, key);
  }

  lemma KeyRoutes(fields: seq<SP.Field>, values: map<string, string>, key: string)
    requires H.FindField(fields, key).Some? && H.FindField(fields, key).value.choice && key in values && key != ""
    ensures H.RoutingKey(fields, key) && H.RoutingValue(values, key) == values[key]
    ensures !H.Unavailable(fields).available && H.Unavailable(fields).routingValue == ""
  {
  }

  lemma ChosenKey(decoded: Json.Json, fold: string -> string, key: string, raw: map<string, Json.Json>,
                  values: map<string, string>)
    requires SP.Acceptable(decoded, fold) && SP.Validate(raw, SP.Parsed(decoded.items)) == Ok(values)
    requires H.FindField(SP.Parsed(decoded.items), key).Some?
    ensures key in values && key != ""
  {
    var fields := SP.Parsed(decoded.items);
    H.ParsedKeys(decoded, fold);
    H.ValidatedKeys(raw, fields);
    hide SP.Validate, SP.Acceptable, SP.Parsed, SP.RESERVED_KEYS;
    var f := FoundField(fields, key);
    assert fields[f] in fields;
  }

  /** A failed lookup leaves the value "unavailable", so its contacts go to the customer's flow if and only if
      no route is listed for that very value. */
  lemma FailedLookupIff(routes: seq<Route>, customerFlow: string, c: Contact)
    requires c.lookup.None? && forall id :: !c.fails(id)
    requires forall r :: r in routes ==> r.flow != customerFlow
    ensures Meaning(routes, customerFlow, c) == To(customerFlow) <==> forall r :: r in routes ==> r.value != NO_VALUE
  {
    var route := RouteOf(routes, NO_VALUE);
    if route.Some? {
      assert routes[route.value] in routes;
    }
  }

  /** Every route of an accepted table is reached, by exactly the contacts with its value. */
  lemma EveryRouteIsReached(routes: seq<Route>, customerFlow: string, c: Contact, i: nat)
    requires DistinctValues(routes) && i < |routes| && c.lookup.Some? && forall id :: !c.fails(id)
    ensures RouteOf(routes, c.lookup.value) == Some(i) <==> c.lookup.value == routes[i].value
    ensures c.lookup.value == routes[i].value ==> Meaning(routes, customerFlow, c) == To(routes[i].flow)
  {
    hide RouteId, CUSTOMER, LOOKUP, COPY, GUIDE, UNAVAILABLE;
    TheRouteOf(routes, c.lookup.value, i);
    hide RouteOf;
  }

  lemma TheRouteOf(routes: seq<Route>, value: string, i: nat)
    requires DistinctValues(routes) && i < |routes|
    ensures RouteOf(routes, value) == Some(i) <==> value == routes[i].value
  {
    var n := RouteOf(routes, value);
    hide RouteOf;
    if n.Some? && value == routes[i].value {
      assert !(n.value < i) && !(i < n.value);
    }
  }
}
