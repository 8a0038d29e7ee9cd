/** The Vapi account and the client that talks to it (lambda/common/vapi_provisioning.py).

    The account is a map from (kind, id) to resource. Every write meets an adversarial environment: it may
    commit and answer, commit and answer with something that is no object, commit with the answer lost, be lost
    before it commits, be refused, or commit and answer with bytes the client cannot read. Reads see every committed
    write, and may fail. */
module VapiRemote {
  import opened Wrappers

  datatype Kind = AssistantKind | CredentialKind | ToolKind

  datatype Key = Key(kind: Kind, id: string)

  /** The parts of a payload the ownership protocol looks at; `body` is everything else.
      `owner` is the bridgefu_owner metadata of an assistant that carries this recipe's bridgefu_recipe. */
  datatype Resource =
    | Assistant(name: string, owner: Option<string>, credentialIds: seq<string>,
                serverCredential: Option<string>, toolIds: seq<string>, body: string)
    | Credential(name: string, bearer: bool, token: string)
    | Tool(prepare: bool, url: string, credentialId: Option<string>, body: string)

  type Store = map<Key, Resource>

  datatype VapiError = AmbiguousWrite | Failed(code: string)

  function KindOf(r: Resource): Kind {
    match r
    case Assistant(_, _, _, _, _, _) => AssistantKind
    case Credential(_, _, _) => CredentialKind
    case Tool(_, _, _, _) => ToolKind
  }

  predicate WellKinded(s: Store) {
    forall k :: k in s ==> k.kind == KindOf(s[k])
  }

  predicate IsIdChar(c: char) {
    'a' <= c <= 'z' || 'A' <= c <= 'Z' || '0' <= c <= '9' || c == '_' || c == '-'
  }

  predicate ValidId(id: string) {
    1 <= |id| <= 128 && forall i :: 0 <= i < |id| ==> IsIdChar(id[i])
  }

  /** What a read returns: Vapi never gives back a credential's bearer token. */
  function Visible(r: Resource): Resource {
    if r.Credential? then r.(token := "") else r
  }

  /** `_desired_payload_present`: the read-back object carries every desired attribute, the write-only
      token excepted. */
  predicate DesiredPresent(actual: Resource, desired: Resource) {
    Visible(actual) == Visible(desired)
  }

  datatype Outcome = Answered | NotObject | LostAfterCommit | LostBeforeCommit | Refused | Garbled {
    predicate Commits() {
      Answered? || NotObject? || LostAfterCommit? || Garbled?
    }

    /** What `_request` returns, apart from the value: whether the answer is an object, or its error. */
    function Told(): (r: Result<bool, VapiError>) {
      match this
      case Answered => Ok(true)
      case NotObject => Ok(false)
      case LostAfterCommit => Err(AmbiguousWrite)
      case LostBeforeCommit => Err(AmbiguousWrite)
      case Refused => Err(Failed("vapi_http_error"))
      case Garbled => Err(Failed("vapi_response_invalid"))
    }
  }

  /** A POST or PATCH answered with something other than an object is as ambiguous as one without an answer. */
  function Checked(told: Result<bool, VapiError>): Result<(), VapiError> {
    match told
    case Ok(isObject) => if isObject then Ok(()) else Err(AmbiguousWrite)
    case Err(e) => Err(e)
  }

  /** The choices the environment makes during one `update`: the two PATCH outcomes and whether each
      read-back succeeds. */
  datatype UpdateEnv = UpdateEnv(first: Outcome, firstRead: bool, second: Outcome, secondRead: bool)

  /** One `VapiHttpClient.update` of an object that exists, as a function of the environment's choices:
      what the caller is told and what the account holds afterwards. The first PATCH answered with no object is
      read back; the second is reported as ambiguous at once. */
  function UpdateRun(before: Resource, desired: Resource, env: UpdateEnv): (Result<(), VapiError>, Resource) {
    var after1 := if env.first.Commits() then desired else before;
    if Checked(env.first.Told()) != Err(AmbiguousWrite) then
      (Checked(env.first.Told()), after1)
    else if !env.firstRead then
      (Err(Failed("vapi_transport_unavailable")), after1)
    else if DesiredPresent(after1, desired) then
      (Ok(()), after1)
    else
      UpdateAgain(after1, desired, env)
  }

  /** The second PATCH of an update and its read-back. */
  function UpdateAgain(before: Resource, desired: Resource, env: UpdateEnv): (Result<(), VapiError>, Resource) {
    var after := if env.second.Commits() then desired else before;
    if env.second.Told() != Err(AmbiguousWrite) then
      (Checked(env.second.Told()), after)
    else if !env.secondRead then
      (Err(Failed("vapi_transport_unavailable")), after)
    else if DesiredPresent(after, desired) then
      (Ok(()), after)
    else
      (Err(AmbiguousWrite), after)
  }

  /** Success always leaves every visible attribute as desired. */
  lemma UpdateIsVisible(before: Resource, desired: Resource, env: UpdateEnv)
    requires UpdateRun(before, desired, env).0.Ok?
    ensures DesiredPresent(UpdateRun(before, desired, env).1, desired)
  {
  }

  /** When success means the write is durable. It does unless the object already looked as desired while
      differing in its token: then a PATCH that never committed is taken for one that did. So an assistant
      or tool update that returns is always stored, and a credential rotation that only changes the token
      can return with the old token still in place. */
  lemma UpdateIsDurableIff(before: Resource, desired: Resource)
    ensures (forall env :: UpdateRun(before, desired, env).0.Ok? ==> UpdateRun(before, desired, env).1 == desired)
       <==> (before == desired || !DesiredPresent(before, desired))
  {
    if before != desired && DesiredPresent(before, desired) {
      var env := UpdateEnv(LostBeforeCommit, true, Refused, true);
      assert UpdateRun(before, desired, env) == (Ok(()), before);
    }
  }

  class VapiClient {
    var store: Store
    const readRetries: nat
    /** Every state the account has been in since the client was made, oldest first. A process that stops
        at any moment leaves the account in one of these. */
    ghost var history: seq<Store>
    /** How many times the environment has misbehaved: a read attempt failed, a list page was full, or a
        write was not simply answered. */
    ghost var faults: nat
    /** How many POSTs have been sent. */
    ghost var posts: nat

    ghost predicate Valid()
      reads this
    {
      |history| > 0 && history[|history| - 1] == store && WellKinded(store)
    }

    /** A client for an account in an arbitrary state. */
    constructor (account: Store, readRetries: nat)
      requires WellKinded(account)
      requires readRetries <= 6
      ensures Valid() && store == account && history == [account] && faults == 0 && posts == 0
    {
      this.readRetries := readRetries;
      store, history, faults, posts := account, [account], 0, 0;
    }

    /** The GET retry loop of `_request`: at most 1 + readRetries attempts. */
    method Read() returns (r: Result<(), VapiError>)
      modifies this`faults
      ensures r.Err? ==> r.error.Failed?
      ensures r.Ok? ==> old(faults) <= faults <= old(faults) + readRetries
      ensures r.Err? ==> old(faults) < faults <= old(faults) + readRetries + 1
    {
      var attempt := 0;
      while attempt < 1 + readRetries
        invariant attempt <= 1 + readRetries
        invariant faults == old(faults) + attempt
      {
        var served: bool, retriable: bool := *, *;
        if served {
          return Ok(());
        }
        faults := faults + 1;
        attempt := attempt + 1;
        if !retriable {
          return Err(Failed("vapi_http_error"));
        }
      }
      return Err(Failed("vapi_transport_unavailable"));
    }

    method Get(k: Key) returns (r: Result<Option<Resource>, VapiError>)
      modifies this`faults
      ensures r.Ok? ==> r.value == if k in store then Some(Visible(store[k])) else None
      ensures r.Ok? ==> ValidId(k.id)
      ensures r.Err? ==> r.error.Failed?
      ensures old(faults) <= faults
      ensures faults == old(faults) && ValidId(k.id) ==> r.Ok?
    {
      if !ValidId(k.id) {
        return Err(Failed("vapi_resource_id_invalid"));
      }
      var _ :- Read();
      return Ok(if k in store then Some(Visible(store[k])) else None);
    }

    /** The exhaustive owner scan: a full page is refused because it proves nothing. */
    method List(kind: Kind) returns (r: Result<Store, VapiError>)
      modifies this`faults
      ensures r.Ok? ==> r.value == map k | k in store && k.kind == kind :: Visible(store[k])
      ensures r.Err? ==> r.error.Failed?
      ensures old(faults) <= faults
      ensures faults == old(faults) ==> r.Ok?
    {
      var _ :- Read();
      var items := map k | k in store && k.kind == kind :: Visible(store[k]);
      if |items| >= 1000 {
        faults := faults + 1;
        return Err(Failed("vapi_response_invalid"));
      }
      return Ok(items);
    }

    /** One POST: the environment picks the outcome and the new identifier. */
    method Post(payload: Resource) returns (r: Result<Key, VapiError>)
      requires Valid()
      modifies this
      ensures Valid() && old(history) <= history && posts == old(posts) + 1
      ensures forall i :: |old(history)| <= i < |history| ==> AddedAtMost(old(store), payload, history[i])
      ensures AddedAtMost(old(store), payload, store)
      ensures r.Ok? ==> r.value.kind == KindOf(payload) && ValidId(r.value.id) && r.value !in old(store)
                        && store == old(store)[r.value := payload]
      ensures old(faults) <= faults
      ensures faults == old(faults) ==> r.Ok?
    {
      posts := posts + 1;
      var outcome: Outcome, id: string := *, *;
      var k := Key(KindOf(payload), id);
      if !ValidId(id) || k in store {
        outcome := Refused;
      }
      if outcome.Commits() {
        store := store[k := payload];
        history := history + [store];
        assert Added(old(store), payload, store, k);
      }
      if !outcome.Answered? {
        faults := faults + 1;
      }
      var _ :- Checked(outcome.Told());
      return Ok(k);
    }

    method Patch(k: Key, desired: Resource) returns (r: Result<bool, VapiError>, ghost outcome: Outcome)
      requires Valid() && k.kind == KindOf(desired)
      modifies this
      ensures Valid() && old(history) <= history && posts == old(posts)
      ensures (history == old(history) && store == old(store)) || history == old(history) + [store]
      ensures r == if k in old(store) then outcome.Told() else Err(Failed("vapi_http_404"))
      ensures store == if k in old(store) && outcome.Commits() then old(store)[k := desired] else old(store)
      ensures old(faults) <= faults
      ensures faults == old(faults) && k in old(store) ==> r == Ok(true)
    {
      var o: Outcome := *;
      outcome := o;
      if k !in store {
        return Err(Failed("vapi_http_404")), outcome;
      }
      if o.Commits() {
        store := store[k := desired];
        history := history + [store];
      }
      if !o.Answered? {
        faults := faults + 1;
      }
      r := o.Told();
    }

    /** One DELETE; a missing object counts as deleted. */
    method Remove(k: Key) returns (r: Result<(), VapiError>)
      requires Valid()
      modifies this
      ensures Valid() && old(history) <= history && posts == old(posts)
      ensures (history == old(history) && store == old(store)) || history == old(history) + [store]
      ensures store == old(store) || store == old(store) - {k}
      ensures r.Ok? ==> store == old(store) - {k}
      ensures old(faults) <= faults
      ensures faults == old(faults) ==> r.Ok?
    {
      var o: Outcome := *;
      if o.Commits() {
        store := store - {k};
        history := history + [store];
      }
      if !o.Answered? {
        faults := faults + 1;
      }
      var _ :- o.Told();
      return Ok(());
    }

    /** `VapiHttpClient.update`: PATCH, read back after an ambiguous answer, PATCH once more, read back. */
    method Update(k: Key, desired: Resource) returns (r: Result<(), VapiError>, ghost env: UpdateEnv)
      requires Valid() && k.kind == KindOf(desired)
      modifies this
      ensures Valid() && old(history) <= history && posts == old(posts)
      ensures forall i :: |old(history)| <= i < |history| ==> PatchedAtMost(old(store), k, desired, history[i])
      ensures PatchedAtMost(old(store), k, desired, store)
      ensures k in old(store) && ValidId(k.id) ==>
                r == UpdateRun(old(store)[k], desired, env).0
                && store == old(store)[k := UpdateRun(old(store)[k], desired, env).1]
      ensures r.Ok? ==> k in old(store) && ValidId(k.id)
      ensures old(faults) <= faults
      ensures faults == old(faults) && k in old(store) && ValidId(k.id) ==> r.Ok?
    {
      hide ValidId, KindOf, Outcome.Told, Outcome.Commits, WellKinded;
      env := UpdateEnv(Refused, false, Refused, false);
      if !ValidId(k.id) {
        return Err(Failed("vapi_resource_id_invalid")), env;
      }
      var sent, first := Patch(k, desired);
      env := env.(first := first);
      if Checked(sent) != Err(AmbiguousWrite) {
        return Checked(sent), env;
      }
      var current := Get(k);
      if current.Err? {
        return Err(Failed("vapi_transport_unavailable")), env;
      }
      env := env.(firstRead := true);
      if current.value.Some? && DesiredPresent(current.value.value, desired) {
        return Ok(()), env;
      }
      r, env := PatchAgain(k, desired, env);
    }

    /** The second half of an update: PATCH once more, read back. */
    method PatchAgain(k: Key, desired: Resource, ghost sofar: UpdateEnv)
      returns (r: Result<(), VapiError>, ghost env: UpdateEnv)
      requires Valid() && k.kind == KindOf(desired) && ValidId(k.id)
      modifies this
      ensures Valid() && old(history) <= history && posts == old(posts)
      ensures forall i :: |old(history)| <= i < |history| ==> PatchedAtMost(old(store), k, desired, history[i])
      ensures PatchedAtMost(old(store), k, desired, store)
      ensures env.first == sofar.first && env.firstRead == sofar.firstRead
      ensures k in old(store) ==>
                r == UpdateAgain(old(store)[k], desired, env).0
                && store == old(store)[k := UpdateAgain(old(store)[k], desired, env).1]
      ensures r.Ok? ==> k in old(store)
      ensures old(faults) <= faults
    {
      hide ValidId, KindOf, Outcome.Told, Outcome.Commits, WellKinded;
      env := sofar.(secondRead := false);
      var again, second := Patch(k, desired);
      env := env.(second := second);
      if again != Err(AmbiguousWrite) {
        return Checked(again), env;
      }
      var current := Get(k);
      if current.Err? {
        return Err(Failed("vapi_transport_unavailable")), env;
      }
      env := env.(secondRead := true);
      if current.value.Some? && DesiredPresent(current.value.value, desired) {
        return Ok(()), env;
      }
      return Err(AmbiguousWrite), env;
    }

    /** `VapiHttpClient.delete`: DELETE, read back after an ambiguous answer, DELETE once more, read back. */
    method Delete(k: Key) returns (r: Result<(), VapiError>)
      requires Valid()
      modifies this
      ensures Valid() && old(history) <= history && posts == old(posts)
      ensures forall i :: |old(history)| <= i < |history| ==> RemovedAtMost(old(store), k, history[i])
      ensures RemovedAtMost(old(store), k, store)
      ensures r.Ok? ==> store == old(store) - {k} && ValidId(k.id)
      ensures old(faults) <= faults
      ensures faults == old(faults) && ValidId(k.id) ==> r.Ok?
    {
      if !ValidId(k.id) {
        return Err(Failed("vapi_resource_id_invalid"));
      }
      r := Remove(k);
      if r != Err(AmbiguousWrite) {
        return;
      }
      var current :- Get(k);
      if current.None? {
        return Ok(());
      }
      r := Remove(k);
      if r != Err(AmbiguousWrite) {
        return;
      }
      current :- Get(k);
      if current.None? {
        return Ok(());
      }
    }
  }

  /** `b` is `a`, or `a` with one more object, holding `payload` under a fresh valid identifier. */
  ghost predicate AddedAtMost(a: Store, payload: Resource, b: Store) {
    b == a || exists k: Key :: Added(a, payload, b, k)
  }

  ghost predicate Added(a: Store, payload: Resource, b: Store, k: Key) {
    k !in a && k.kind == KindOf(payload) && ValidId(k.id) && b == a[k := payload]
  }

  predicate PatchedAtMost(a: Store, k: Key, desired: Resource, b: Store) {
    b == a || (k in a && b == a[k := desired])
  }

  predicate RemovedAtMost(a: Store, k: Key, b: Store) {
    b == a || b == a - {k}
  }
}
