/** Ownership-safe provisioning of one assistant, one credential and one prepare tool
    (lambda/common/vapi_provisioning.py), as a crash-recovery protocol over an adversarial account.

    The results hold for every account the run may start in and every behaviour of the environment:
    what success leaves behind, what every intermediate state (a crash point) still satisfies, and that a
    run the environment does not disturb gets through from any state a crashed run can leave. */
module VapiProvisioning {
  import opened Wrappers
  import opened VapiRemote

  datatype Config = Config(
    owner: string,
    assistantName: string,
    credentialName: string,
    prepareUrl: string,
    transferUrl: string,
    preliminaryBody: string,
    finalBody: string,
    toolBody: string,
    token: Option<string>)

  datatype Provisioned = Provisioned(assistantId: string, toolId: string, credentialId: string)

  datatype Found = Found(key: Key, resource: Resource)

  /** The three owner scans handed to `_create_with_reconciliation`. */
  datatype Scan = ForAssistant | ForCredential(assistant: Resource) | ForTool(credentialId: string)

  // Payloads

  function PreliminaryAssistant(cfg: Config, credentialId: Option<string>): Resource {
    Assistant(cfg.assistantName, Some(cfg.owner),
              if credentialId.Some? then [credentialId.value] else [], credentialId, [], cfg.preliminaryBody)
  }

  function FinalAssistant(cfg: Config, credentialId: string, toolId: string): Resource {
    Assistant(cfg.assistantName, Some(cfg.owner), [credentialId], Some(credentialId), [toolId], cfg.finalBody)
  }

  predicate TokenUsable(cfg: Config) {
    cfg.token.Some? && |cfg.token.value| >= 32
  }

  function CredentialPayload(cfg: Config): Result<Resource, VapiError> {
    if TokenUsable(cfg) then Ok(Credential(cfg.credentialName, true, cfg.token.value))
    else Err(Failed("webhook_credential_invalid"))
  }

  function PrepareTool(cfg: Config, credentialId: string): Resource {
    Tool(true, cfg.prepareUrl, Some(credentialId), cfg.toolBody)
  }

  // Ownership

  predicate OwnedAssistant(r: Resource, cfg: Config) {
    r.Assistant? && r.owner == Some(cfg.owner)
  }

  predicate OwnedCredentialShape(r: Resource, cfg: Config) {
    r.Credential? && r.name == cfg.credentialName && r.bearer
  }

  predicate IsPrepareTool(r: Resource, cfg: Config) {
    r.Tool? && r.prepare && r.url == cfg.prepareUrl
  }

  /** The ownership predicate, over all kinds. */
  predicate Owned(r: Resource, cfg: Config) {
    OwnedAssistant(r, cfg) || OwnedCredentialShape(r, cfg) || IsPrepareTool(r, cfg)
  }

  /** `_assistant_credential_id`: the one credential an assistant is attached to. */
  function AttachedId(assistant: Resource): Result<Option<string>, VapiError>
    requires assistant.Assistant?
  {
    var invalid := Err(Failed("vapi_credential_result_invalid"));
    var badId := Err(Failed("vapi_resource_id_invalid"));
    if |assistant.credentialIds| > 1 then invalid
    else
      var listed := if assistant.credentialIds == [] then None else Some(assistant.credentialIds[0]);
      var server := assistant.serverCredential;
      if listed.Some? && !ValidId(listed.value) then badId
      else if server.Some? && !ValidId(server.value) then badId
      else if listed.Some? && server.Some? && listed != server then invalid
      else Ok(if listed.Some? then listed else server)
  }

  function ScanKind(scan: Scan): Kind {
    match scan
    case ForAssistant => AssistantKind
    case ForCredential(_) => CredentialKind
    case ForTool(_) => ToolKind
  }

  /** Whether a scan's deterministic key picks the object out. */
  predicate Selected(r: Resource, cfg: Config, scan: Scan) {
    match scan
    case ForAssistant => r.Assistant? && r.name == cfg.assistantName
    case ForCredential(_) => r.Credential? && r.name == cfg.credentialName
    case ForTool(_) => IsPrepareTool(r, cfg)
  }

  /** Whether the only object picked out is really this owner's. */
  predicate Acceptable(k: Key, r: Resource, cfg: Config, scan: Scan) {
    match scan
    case ForAssistant => OwnedAssistant(r, cfg)
    case ForCredential(a) => OwnedCredentialShape(r, cfg) && a.Assistant?
      && (AttachedId(a) == Ok(None) || AttachedId(a) == Ok(Some(k.id)))
    case ForTool(c) => r.Tool? && r.credentialId == Some(c)
  }

  function Matches(s: Store, cfg: Config, scan: Scan): set<Key> {
    set k | k in s && Selected(s[k], cfg, scan)
  }

  /** The scan stops the run: the key is ambiguous, or taken by an object that is not this owner's. */
  predicate Blocked(s: Store, cfg: Config, scan: Scan) {
    var m := Matches(s, cfg, scan);
    |m| > 1 || exists k :: k in m && !Acceptable(k, s[k], cfg, scan)
  }

  lemma MatchesAfterPut(s: Store, cfg: Config, scan: Scan, k: Key, r: Resource)
    requires k in Matches(s, cfg, scan) ==> Selected(r, cfg, scan)
    ensures Matches(s[k := r], cfg, scan)
         == if Selected(r, cfg, scan) then Matches(s, cfg, scan) + {k} else Matches(s, cfg, scan)
  {
  }

  lemma SoleMember(m: set<Key>, k: Key)
    requires k in m && |m| <= 1
    ensures m == {k}
  {
    assert |m - {k}| == |m| - 1;
  }

  // What the protocol keeps

  /** A state a crashed `provision_create` can leave: at most one object of each kind under the owner's
      keys, each owned, none attached to anything but the others. */
  ghost predicate Recoverable(s: Store, cfg: Config) {
    WellKinded(s) && Consistent(s, cfg, Assistants(s, cfg), Credentials(s, cfg), Tools(s, cfg))
  }

  ghost predicate Consistent(s: Store, cfg: Config, a: set<Key>, c: set<Key>, t: set<Key>) {
    && |a| <= 1 && |c| <= 1 && |t| <= 1
    && (c != {} ==> a != {})
    && (forall k :: k in a ==> k in s && GoodAssistant(k, s[k], cfg, c))
    && (forall k :: k in c ==> k in s && GoodCredential(k, s[k]))
    && (forall k :: k in t ==> k in s && GoodTool(k, s[k], c))
  }

  predicate GoodAssistant(k: Key, r: Resource, cfg: Config, credentials: set<Key>) {
    && ValidId(k.id) && OwnedAssistant(r, cfg) && AttachedId(r).Ok?
    && (AttachedId(r).value.Some? ==> Key(CredentialKind, AttachedId(r).value.value) in credentials)
  }

  predicate GoodCredential(k: Key, r: Resource) {
    ValidId(k.id) && r.Credential? && r.bearer
  }

  predicate GoodTool(k: Key, r: Resource, credentials: set<Key>) {
    ValidId(k.id) && r.Tool? && r.credentialId.Some? && Key(CredentialKind, r.credentialId.value) in credentials
  }

  function Assistants(s: Store, cfg: Config): set<Key> {
    Matches(s, cfg, ForAssistant)
  }

  function Credentials(s: Store, cfg: Config): set<Key> {
    Matches(s, cfg, ForCredential(PreliminaryAssistant(cfg, None)))
  }

  function Tools(s: Store, cfg: Config): set<Key> {
    Matches(s, cfg, ForTool(""))
  }

  /** The goal: exactly one object of each kind under the owner's keys, attached to one another. */
  ghost predicate Complete(s: Store, cfg: Config, p: Provisioned) {
    var a, t, c := Key(AssistantKind, p.assistantId), Key(ToolKind, p.toolId), Key(CredentialKind, p.credentialId);
    && WellKinded(s)
    && ValidId(p.assistantId) && ValidId(p.toolId) && ValidId(p.credentialId)
    && Assistants(s, cfg) == {a} && s[a] == FinalAssistant(cfg, p.credentialId, p.toolId)
    && Credentials(s, cfg) == {c} && s[c].bearer
    && Tools(s, cfg) == {t} && s[t] == PrepareTool(cfg, p.credentialId)
  }

  /** Nothing is deleted, what is not owned is untouched, and what is new is owned. */
  ghost predicate Framed(cfg: Config, a: Store, b: Store) {
    && (forall k :: k in a ==> k in b)
    && (forall k :: k in a && !Owned(a[k], cfg) ==> b[k] == a[k])
    && (forall k :: k in a && Owned(a[k], cfg) ==> Owned(b[k], cfg))
    && (forall k :: k in b && k !in a ==> Owned(b[k], cfg))
  }

  /** What holds of every state between the start of a create and its end or crash. */
  ghost predicate Sound(cfg: Config, start: Store, s: Store) {
    Framed(cfg, start, s) && (Recoverable(start, cfg) ==> Recoverable(s, cfg))
  }

  /** Every state from index `from` on is sound with respect to `start`. */
  ghost predicate SoundSince(cfg: Config, start: Store, states: seq<Store>, from: nat) {
    from <= |states| && forall i :: from <= i < |states| ==> Sound(cfg, start, states[i])
  }

  /** `ForCredential` and `ForTool` pick objects out the same way whatever they compare them with. */
  lemma ScanKeys(s: Store, cfg: Config, assistant: Resource, credentialId: string)
    ensures Matches(s, cfg, ForCredential(assistant)) == Credentials(s, cfg)
    ensures Matches(s, cfg, ForTool(credentialId)) == Tools(s, cfg)
  {
  }

  lemma AllMatchesAfterPut(s: Store, cfg: Config, k: Key, r: Resource)
    requires WellKinded(s) && k.kind == KindOf(r)
    requires k in s ==> OwnerKeyed(r, cfg)
    ensures WellKinded(s[k := r])
    ensures Assistants(s[k := r], cfg)
         == if r.Assistant? && r.name == cfg.assistantName then Assistants(s, cfg) + {k} else Assistants(s, cfg)
    ensures Credentials(s[k := r], cfg)
         == if r.Credential? && r.name == cfg.credentialName then Credentials(s, cfg) + {k} else Credentials(s, cfg)
    ensures Tools(s[k := r], cfg)
         == if IsPrepareTool(r, cfg) then Tools(s, cfg) + {k} else Tools(s, cfg)
  {
    MatchesAfterPut(s, cfg, ForAssistant, k, r);
    MatchesAfterPut(s, cfg, ForCredential(PreliminaryAssistant(cfg, None)), k, r);
    MatchesAfterPut(s, cfg, ForTool(""), k, r);
  }

  /** The object sits under one of the owner's deterministic keys. */
  predicate OwnerKeyed(r: Resource, cfg: Config) {
    match r
    case Assistant(name, _, _, _, _, _) => name == cfg.assistantName
    case Credential(name, _, _) => name == cfg.credentialName
    case Tool(_, _, _, _) => IsPrepareTool(r, cfg)
  }

  // The five writes of a create keep recoverability.

  lemma CreatingAssistant(s: Store, cfg: Config, k: Key)
    requires Recoverable(s, cfg) && Assistants(s, cfg) == {} && k !in s
    requires k.kind == AssistantKind && ValidId(k.id)
    ensures Recoverable(s[k := PreliminaryAssistant(cfg, None)], cfg)
  {
    AllMatchesAfterPut(s, cfg, k, PreliminaryAssistant(cfg, None));
    assert Credentials(s, cfg) == Tools(s, cfg) == {};
    ConsistentPut(s, cfg, {}, {}, {}, k, PreliminaryAssistant(cfg, None));
  }

  lemma CreatingCredential(s: Store, cfg: Config, k: Key, payload: Resource)
    requires Recoverable(s, cfg) && Credentials(s, cfg) == {} && Assistants(s, cfg) != {} && k !in s
    requires k.kind == CredentialKind && ValidId(k.id) && CredentialPayload(cfg) == Ok(payload)
    ensures Recoverable(s[k := payload], cfg)
  {
    AllMatchesAfterPut(s, cfg, k, payload);
    assert Tools(s, cfg) == {};
    ConsistentPut(s, cfg, Assistants(s, cfg), {}, {}, k, payload);
  }

  lemma AttachingAssistant(s: Store, cfg: Config, a: Key, c: string, desired: Resource)
    requires Recoverable(s, cfg) && Assistants(s, cfg) == {a}
    requires Credentials(s, cfg) == {Key(CredentialKind, c)} && ValidId(c)
    requires OwnedAssistant(desired, cfg) && desired.name == cfg.assistantName
    requires desired.credentialIds == [c] && desired.serverCredential == Some(c)
    ensures Recoverable(s[a := desired], cfg)
  {
    AllMatchesAfterPut(s, cfg, a, desired);
    assert GoodAssistant(a, desired, cfg, {Key(CredentialKind, c)});
    assert Consistent(s[a := desired], cfg, {a}, Credentials(s, cfg), Tools(s, cfg));
  }

  lemma PuttingTool(s: Store, cfg: Config, t: Key, c: string)
    requires Recoverable(s, cfg) && t.kind == ToolKind && ValidId(t.id)
    requires Tools(s, cfg) <= {t} && (t in s ==> t in Tools(s, cfg))
    requires Credentials(s, cfg) == {Key(CredentialKind, c)}
    ensures Recoverable(s[t := PrepareTool(cfg, c)], cfg)
  {
    AllMatchesAfterPut(s, cfg, t, PrepareTool(cfg, c));
    ConsistentPut(s, cfg, Assistants(s, cfg), Credentials(s, cfg), Tools(s, cfg), t, PrepareTool(cfg, c));
  }

  /** The put that all four have in common, over the three scanned sets. */
  lemma ConsistentPut(s: Store, cfg: Config, a: set<Key>, c: set<Key>, t: set<Key>, k: Key, r: Resource)
    requires Consistent(s, cfg, a, c, t) && KindOf(r) == k.kind && k !in a && k !in c
    requires r.Assistant? ==> a == {} && GoodAssistant(k, r, cfg, c)
    requires r.Credential? ==> c == {} && a != {} && GoodCredential(k, r)
    requires r.Tool? ==> t <= {k} && GoodTool(k, r, c)
    requires !r.Tool? ==> k !in t
    ensures r.Assistant? ==> Consistent(s[k := r], cfg, {k}, c, t)
    ensures r.Credential? ==> Consistent(s[k := r], cfg, a, {k}, t)
    ensures r.Tool? ==> Consistent(s[k := r], cfg, a, c, {k})
  {
  }

  /** Putting an owned payload under a fresh or owned key keeps the frame. */
  lemma FramedPut(cfg: Config, start: Store, s: Store, k: Key, r: Resource)
    requires Framed(cfg, start, s) && Owned(r, cfg)
    requires k in s ==> Owned(s[k], cfg)
    ensures Framed(cfg, start, s[k := r])
  {
  }

  // The scans

  /** `_find_assistant`, `_find_credential` and `_find_prepare_tool`. */
  method Find(client: VapiClient, cfg: Config, scan: Scan) returns (r: Result<Option<Found>, VapiError>)
    requires client.Valid()
    requires scan.ForCredential? ==> scan.assistant.Assistant?
    modifies client`faults
    ensures client.Valid() && old(client.faults) <= client.faults
    ensures r == Ok(None) ==> Matches(client.store, cfg, scan) == {}
    ensures r.Ok? && r.value.Some? ==>
              var k := r.value.value.key;
              && k in client.store && k.kind == ScanKind(scan)
              && Matches(client.store, cfg, scan) == {k}
              && r.value.value.resource == Visible(client.store[k])
              && Acceptable(k, client.store[k], cfg, scan)
    ensures r.Err? ==> r.error.Failed?
    ensures r.Err? ==> client.faults > old(client.faults) || Blocked(client.store, cfg, scan)
  {
    var items :- client.List(ScanKind(scan));
    var matches := set k | k in items && Selected(items[k], cfg, scan);
    assert matches == Matches(client.store, cfg, scan);
    if |matches| > 1 {
      return Err(Failed("ambiguous"));
    }
    if matches == {} {
      return Ok(None);
    }
    var k :| k in matches;
    SoleMember(matches, k);
    assert Acceptable(k, items[k], cfg, scan) == Acceptable(k, client.store[k], cfg, scan);
    if !Acceptable(k, items[k], cfg, scan) {
      return Err(Failed("ownership_conflict"));
    }
    return Ok(Some(Found(k, items[k])));
  }

  /** The reconciliation reads: at most three scans, the first hit wins. */
  method Reconcile(client: VapiClient, cfg: Config, scan: Scan) returns (r: Result<Option<Found>, VapiError>)
    requires client.Valid()
    requires scan.ForCredential? ==> scan.assistant.Assistant?
    modifies client`faults
    ensures client.Valid() && old(client.faults) <= client.faults
    ensures r == Ok(None) ==> Matches(client.store, cfg, scan) == {}
    ensures r.Ok? && r.value.Some? ==>
              var k := r.value.value.key;
              && k in client.store && k.kind == ScanKind(scan)
              && Matches(client.store, cfg, scan) == {k}
              && r.value.value.resource == Visible(client.store[k])
              && Acceptable(k, client.store[k], cfg, scan)
    ensures r.Err? ==> r.error.Failed?
  {
    var found: Option<Found> := None;
    for attempt := 0 to 3
      invariant client.Valid() && old(client.faults) <= client.faults
      invariant attempt > 0 ==> Matches(client.store, cfg, scan) == {}
    {
      found :- Find(client, cfg, scan);
      if found.Some? {
        return Ok(found);
      }
    }
    return Ok(None);
  }

  /** `_create_with_reconciliation`: POST, reconcile an ambiguous answer, POST at most once more.
      Whatever the environment does, at most one object is ever added. */
  method CreateWithReconciliation(client: VapiClient, cfg: Config, scan: Scan, payload: Resource)
    returns (r: Result<Found, VapiError>)
    requires client.Valid() && Matches(client.store, cfg, scan) == {}
    requires Selected(payload, cfg, scan)
    requires scan.ForCredential? ==> scan.assistant.Assistant?
    modifies client
    ensures client.Valid() && old(client.history) <= client.history
    ensures client.posts <= old(client.posts) + 2
    ensures forall i :: |old(client.history)| <= i < |client.history| ==>
              AddedAtMost(old(client.store), payload, client.history[i])
    ensures AddedAtMost(old(client.store), payload, client.store)
    ensures r.Ok? ==> Added(old(client.store), payload, client.store, r.value.key)
    ensures r.Ok? ==> Visible(r.value.resource) == Visible(payload)
    ensures old(client.faults) <= client.faults
    ensures client.faults == old(client.faults) ==> r.Ok?
  {
    ghost var s0, h0 := client.store, client.history;
    var key := client.Post(payload);
    if key.Ok? {
      return Ok(Found(key.value, payload));
    }
    if key.error.Failed? {
      return Err(key.error);
    }
    AddedMatches(s0, client.store, cfg, scan, payload);
    var found :- Reconcile(client, cfg, scan);
    if found.Some? {
      return Ok(found.value);
    }
    assert client.store == s0;
    ghost var h1 := client.history;
    key := client.Post(payload);
    if key.Ok? {
      return Ok(Found(key.value, payload));
    }
    if key.error.Failed? {
      return Err(key.error);
    }
    AddedMatches(s0, client.store, cfg, scan, payload);
    found :- Reconcile(client, cfg, scan);
    if found.Some? {
      return Ok(found.value);
    }
    return Err(Failed("vapi_create_unresolved"));
  }

  /** A scan that found nothing before tells a committed write from a lost one. */
  lemma AddedMatches(a: Store, b: Store, cfg: Config, scan: Scan, payload: Resource)
    requires AddedAtMost(a, payload, b) && Matches(a, cfg, scan) == {} && Selected(payload, cfg, scan)
    ensures Matches(b, cfg, scan) == {} <==> b == a
    ensures forall k :: Matches(b, cfg, scan) == {k} ==> Added(a, payload, b, k)
  {
    if b != a {
      var k :| Added(a, payload, b, k);
      MatchesAfterPut(a, cfg, scan, k, payload);
    }
  }

  // Create

  lemma SoundRefl(cfg: Config, s: Store, states: seq<Store>)
    ensures Sound(cfg, s, s)
    ensures SoundSince(cfg, s, states, |states|)
  {
  }

  lemma RecoverableMembers(s: Store, cfg: Config)
    requires Recoverable(s, cfg)
    ensures Assistants(s, cfg) == {} ==> Credentials(s, cfg) == {}
    ensures forall k :: k in Assistants(s, cfg) ==> GoodAssistant(k, s[k], cfg, Credentials(s, cfg))
    ensures forall k :: k in Credentials(s, cfg) ==> ValidId(k.id) && s[k].bearer
    ensures forall k :: k in Tools(s, cfg) ==> ValidId(k.id)
  {
  }

  /** From a recoverable state no owner scan stops the run. */
  lemma NotBlocked(s: Store, cfg: Config, scan: Scan)
    requires Recoverable(s, cfg)
    requires scan.ForCredential? ==> exists a :: a in Assistants(s, cfg) && s[a] == scan.assistant
    requires scan.ForTool? ==> Credentials(s, cfg) == {Key(CredentialKind, scan.credentialId)}
    ensures !Blocked(s, cfg, scan)
  {
    ScanKeys(s, cfg, PreliminaryAssistant(cfg, None), if scan.ForTool? then scan.credentialId else "");
    if scan.ForCredential? {
      ScanKeys(s, cfg, scan.assistant, "");
      var a :| a in Assistants(s, cfg) && s[a] == scan.assistant;
      assert GoodAssistant(a, s[a], cfg, Credentials(s, cfg));
      forall k | k in Credentials(s, cfg) ensures Acceptable(k, s[k], cfg, scan) {
        SoleMember(Credentials(s, cfg), k);
      }
    }
  }

  /** `SoundAdd` over every state a create-with-reconciliation passed through. */
  lemma SoundAdds(cfg: Config, s: Store, payload: Resource, c: string, states: seq<Store>, from: nat)
    requires from <= |states| && WellKinded(s)
    requires forall i :: from <= i < |states| ==> AddedAtMost(s, payload, states[i])
    requires || (payload == PreliminaryAssistant(cfg, None) && Assistants(s, cfg) == {})
             || (CredentialPayload(cfg) == Ok(payload) && Credentials(s, cfg) == {} && Assistants(s, cfg) != {})
             || (payload == PrepareTool(cfg, c) && Tools(s, cfg) == {}
                 && Credentials(s, cfg) == {Key(CredentialKind, c)})
    ensures SoundSince(cfg, s, states, from)
  {
    forall i | from <= i < |states| ensures Sound(cfg, s, states[i]) {
      SoundAdd(cfg, s, s, payload, c, states[i]);
    }
  }

  /** Every write a create makes, from any state it has reached, keeps `Sound`. */
  lemma SoundAdd(cfg: Config, start: Store, s: Store, payload: Resource, c: string, h: Store)
    requires Sound(cfg, start, s) && AddedAtMost(s, payload, h) && WellKinded(s)
    requires || (payload == PreliminaryAssistant(cfg, None) && Assistants(s, cfg) == {})
             || (CredentialPayload(cfg) == Ok(payload) && Credentials(s, cfg) == {} && Assistants(s, cfg) != {})
             || (payload == PrepareTool(cfg, c) && Tools(s, cfg) == {}
                 && Credentials(s, cfg) == {Key(CredentialKind, c)})
    ensures Sound(cfg, start, h)
  {
    if h != s {
      var k :| Added(s, payload, h, k);
      FramedPut(cfg, start, s, k, payload);
      if Recoverable(s, cfg) {
        match payload
        case Assistant(_, _, _, _, _, _) => CreatingAssistant(s, cfg, k);
        case Credential(_, _, _) => CreatingCredential(s, cfg, k, payload);
        case Tool(_, _, _, _) => PuttingTool(s, cfg, k, c);
      }
    }
  }

  lemma SoundAttach(cfg: Config, start: Store, s: Store, a: Key, c: string, desired: Resource, h: Store)
    requires Sound(cfg, start, s) && PatchedAtMost(s, a, desired, h)
    requires Assistants(s, cfg) == {a} && Owned(s[a], cfg) && Credentials(s, cfg) == {Key(CredentialKind, c)}
             && ValidId(c)
    requires OwnedAssistant(desired, cfg) && desired.name == cfg.assistantName
    requires desired.credentialIds == [c] && desired.serverCredential == Some(c)
    ensures Sound(cfg, start, h)
  {
    if h != s {
      FramedPut(cfg, start, s, a, desired);
      if Recoverable(s, cfg) {
        AttachingAssistant(s, cfg, a, c, desired);
      }
    }
  }

  lemma SoundRebind(cfg: Config, start: Store, s: Store, t: Key, c: string, h: Store)
    requires Sound(cfg, start, s) && PatchedAtMost(s, t, PrepareTool(cfg, c), h)
    requires Tools(s, cfg) == {t} && Credentials(s, cfg) == {Key(CredentialKind, c)}
    requires ValidId(t.id) && t.kind == ToolKind
    ensures Sound(cfg, start, h)
  {
    if h != s {
      FramedPut(cfg, start, s, t, PrepareTool(cfg, c));
      if Recoverable(s, cfg) {
        PuttingTool(s, cfg, t, c);
      }
    }
  }

  /** `_credential_name_matches` */
  method CredentialNameMatches(client: VapiClient, cfg: Config) returns (r: Result<set<Key>, VapiError>)
    requires client.Valid()
    modifies client`faults
    ensures client.Valid() && old(client.faults) <= client.faults
    ensures r.Ok? ==> r.value == Credentials(client.store, cfg)
    ensures r.Err? ==> client.faults > old(client.faults)
  {
    var items :- client.List(CredentialKind);
    var claims := set k | k in items && items[k].Credential? && items[k].name == cfg.credentialName;
    assert claims == Credentials(client.store, cfg);
    return Ok(claims);
  }

  /** The assistant step of `provision_create`: find it, or create it when no credential claims the owner. */
  method EnsureAssistant(client: VapiClient, cfg: Config) returns (r: Result<Found, VapiError>)
    requires client.Valid()
    modifies client
    ensures client.Valid() && old(client.history) <= client.history
    ensures SoundSince(cfg, old(client.store), client.history, |old(client.history)|)
    ensures Sound(cfg, old(client.store), client.store)
    ensures r.Ok? ==>
              var k := r.value.key;
              && Assistants(client.store, cfg) == {k} && k.kind == AssistantKind && ValidId(k.id)
              && r.value.resource == client.store[k] && OwnedAssistant(client.store[k], cfg)
    ensures r.Ok? && Assistants(old(client.store), cfg) != {} ==> client.store == old(client.store)
    ensures old(client.faults) <= client.faults
    ensures client.faults == old(client.faults) && Recoverable(old(client.store), cfg) ==> r.Ok?
  {
    hide SoundSince; hide Sound, Recoverable, AttachedId;
    ghost var s0 := client.store;
    SoundRefl(cfg, s0, client.history);
    if Recoverable(s0, cfg) {
      RecoverableMembers(s0, cfg);
      NotBlocked(s0, cfg, ForAssistant);
    }
    var found :- Find(client, cfg, ForAssistant);
    var assistant: Found;
    if found.Some? {
      assistant := found.value;
    } else {
      var claims :- CredentialNameMatches(client, cfg);
      if claims != {} {
        return Err(Failed("vapi_credential_ownership_conflict"));
      }
      ghost var h0 := client.history;
      r := CreateWithReconciliation(client, cfg, ForAssistant, PreliminaryAssistant(cfg, None));
      SoundAdds(cfg, s0, PreliminaryAssistant(cfg, None), "", client.history, |h0|);
      SoundAdd(cfg, s0, s0, PreliminaryAssistant(cfg, None), "", client.store);
      assistant :- r;
      AllMatchesAfterPut(s0, cfg, assistant.key, PreliminaryAssistant(cfg, None));
    }
    if !OwnedAssistant(assistant.resource, cfg) {
      return Err(Failed("vapi_assistant_ownership_conflict"));
    }
    if !ValidId(assistant.key.id) {
      return Err(Failed("vapi_resource_id_invalid"));
    }
    return Ok(assistant);
  }

  /** What the credential step checks of the credential it found or created. */
  predicate ClaimOk(cfg: Config, assistant: Resource, credential: Found)
    requires assistant.Assistant?
  {
    && OwnedCredentialShape(credential.resource, cfg) && ValidId(credential.key.id) && AttachedId(assistant).Ok?
    && (AttachedId(assistant).value.Some? ==> AttachedId(assistant).value == Some(credential.key.id))
  }

  /** The credential of the owner, found or created. */
  method ObtainCredential(client: VapiClient, cfg: Config, assistant: Found) returns (r: Result<Found, VapiError>)
    requires client.Valid()
    requires Assistants(client.store, cfg) == {assistant.key} && assistant.key.kind == AssistantKind
    requires assistant.resource == client.store[assistant.key]
    modifies client
    ensures client.Valid() && old(client.history) <= client.history
    ensures SoundSince(cfg, old(client.store), client.history, |old(client.history)|)
    ensures Sound(cfg, old(client.store), client.store)
    ensures r.Ok? ==>
              var k := r.value.key;
              && k.kind == CredentialKind && Credentials(client.store, cfg) == {k}
              && Visible(r.value.resource) == Visible(client.store[k])
              && Assistants(client.store, cfg) == {assistant.key}
              && client.store[assistant.key] == assistant.resource
    ensures r.Ok? && Credentials(old(client.store), cfg) != {} ==> client.store == old(client.store)
    ensures old(client.faults) <= client.faults
    ensures r.Ok? && Recoverable(old(client.store), cfg) ==> ClaimOk(cfg, assistant.resource, r.value)
    ensures client.faults == old(client.faults) && Recoverable(old(client.store), cfg) && TokenUsable(cfg) ==> r.Ok?
  {
    hide SoundSince, Sound, Recoverable, AttachedId, ValidId;
    ghost var s0 := client.store;
    ScanKeys(s0, cfg, assistant.resource, "");
    SoundRefl(cfg, s0, client.history);
    if Recoverable(s0, cfg) {
      RecoverableMembers(s0, cfg);
      NotBlocked(s0, cfg, ForCredential(assistant.resource));
    }
    var found :- Find(client, cfg, ForCredential(assistant.resource));
    if found.Some? {
      return Ok(found.value);
    }
    var payload :- CredentialPayload(cfg);
    ghost var h0 := client.history;
    r := CreateWithReconciliation(client, cfg, ForCredential(assistant.resource), payload);
    SoundAdds(cfg, s0, payload, "", client.history, |h0|);
    SoundAdd(cfg, s0, s0, payload, "", client.store);
    if r.Ok? {
      AllMatchesAfterPut(s0, cfg, r.value.key, payload);
    }
  }

  /** The credential step of `provision_create`. */
  method EnsureCredential(client: VapiClient, cfg: Config, assistant: Found) returns (r: Result<string, VapiError>)
    requires client.Valid()
    requires Assistants(client.store, cfg) == {assistant.key} && assistant.key.kind == AssistantKind
    requires assistant.resource == client.store[assistant.key]
    modifies client
    ensures client.Valid() && old(client.history) <= client.history
    ensures SoundSince(cfg, old(client.store), client.history, |old(client.history)|)
    ensures Sound(cfg, old(client.store), client.store)
    ensures r.Ok? ==>
              var k := Key(CredentialKind, r.value);
              && Credentials(client.store, cfg) == {k} && ValidId(r.value) && client.store[k].bearer
              && Assistants(client.store, cfg) == {assistant.key}
              && client.store[assistant.key] == assistant.resource
    ensures r.Ok? && Credentials(old(client.store), cfg) != {} ==> client.store == old(client.store)
    ensures old(client.faults) <= client.faults
    ensures client.faults == old(client.faults) && Recoverable(old(client.store), cfg) && TokenUsable(cfg) ==> r.Ok?
  {
    hide SoundSince, Sound, Recoverable, AttachedId, ValidId;
    var credential :- ObtainCredential(client, cfg, assistant);
    if !OwnedCredentialShape(credential.resource, cfg) {
      return Err(Failed("vapi_credential_ownership_conflict"));
    }
    if !ValidId(credential.key.id) {
      return Err(Failed("vapi_resource_id_invalid"));
    }
    var attached :- AttachedId(assistant.resource);
    if attached.Some? && attached.value != credential.key.id {
      return Err(Failed("vapi_credential_ownership_conflict"));
    }
    return Ok(credential.key.id);
  }

  /** The tool step of `provision_create`. */
  method EnsureTool(client: VapiClient, cfg: Config, c: string) returns (r: Result<string, VapiError>)
    requires client.Valid()
    requires Credentials(client.store, cfg) == {Key(CredentialKind, c)}
    modifies client
    ensures client.Valid() && old(client.history) <= client.history
    ensures SoundSince(cfg, old(client.store), client.history, |old(client.history)|)
    ensures Sound(cfg, old(client.store), client.store)
    ensures r.Ok? ==>
              var k := Key(ToolKind, r.value);
              && Tools(client.store, cfg) == {k} && ValidId(r.value)
              && Credentials(client.store, cfg) == Credentials(old(client.store), cfg)
              && Assistants(client.store, cfg) == Assistants(old(client.store), cfg)
              && (forall a :: a in old(client.store) ==> a in client.store && client.store[a] == old(client.store)[a])
    ensures r.Ok? && Tools(old(client.store), cfg) != {} ==> client.store == old(client.store)
    ensures old(client.faults) <= client.faults
    ensures client.faults == old(client.faults) && Recoverable(old(client.store), cfg) ==> r.Ok?
  {
    hide SoundSince; hide Sound, Recoverable;
    ghost var s0 := client.store;
    ScanKeys(s0, cfg, PreliminaryAssistant(cfg, None), c);
    SoundRefl(cfg, s0, client.history);
    if Recoverable(s0, cfg) {
      RecoverableMembers(s0, cfg);
      NotBlocked(s0, cfg, ForTool(c));
    }
    var found :- Find(client, cfg, ForTool(c));
    var tool: Found;
    if found.Some? {
      tool := found.value;
    } else {
      ghost var h0 := client.history;
      var created := CreateWithReconciliation(client, cfg, ForTool(c), PrepareTool(cfg, c));
      SoundAdds(cfg, s0, PrepareTool(cfg, c), c, client.history, |h0|);
      SoundAdd(cfg, s0, s0, PrepareTool(cfg, c), c, client.store);
      tool :- created;
      AllMatchesAfterPut(s0, cfg, tool.key, PrepareTool(cfg, c));
    }
    if !ValidId(tool.key.id) {
      return Err(Failed("vapi_resource_id_invalid"));
    }
    return Ok(tool.key.id);
  }

  lemma SoundTrans(cfg: Config, a: Store, b: Store, c: Store)
    requires Sound(cfg, a, b) && Sound(cfg, b, c)
    ensures Sound(cfg, a, c)
  {
  }

  /** Joins two stretches of a run. */
  lemma SoundJoin(cfg: Config, a: Store, b: Store, c: Store, before: seq<Store>, states: seq<Store>, from: nat)
    requires SoundSince(cfg, a, before, from) && Sound(cfg, a, b)
    requires before <= states && SoundSince(cfg, b, states, |before|) && Sound(cfg, b, c)
    ensures SoundSince(cfg, a, states, from) && Sound(cfg, a, c)
  {
    SoundTrans(cfg, a, b, c);
    forall i | from <= i < |states| ensures Sound(cfg, a, states[i]) {
      if i < |before| {
        assert states[i] == before[i];
      } else {
        SoundTrans(cfg, a, b, states[i]);
      }
    }
  }

  lemma SoundAttaches(cfg: Config, s: Store, a: Key, c: string, desired: Resource, states: seq<Store>, from: nat)
    requires from <= |states|
    requires forall i :: from <= i < |states| ==> PatchedAtMost(s, a, desired, states[i])
    requires Assistants(s, cfg) == {a} && Owned(s[a], cfg) && Credentials(s, cfg) == {Key(CredentialKind, c)}
             && ValidId(c)
    requires OwnedAssistant(desired, cfg) && desired.name == cfg.assistantName
    requires desired.credentialIds == [c] && desired.serverCredential == Some(c)
    ensures SoundSince(cfg, s, states, from)
  {
    forall i | from <= i < |states| ensures Sound(cfg, s, states[i]) {
      SoundAttach(cfg, s, s, a, c, desired, states[i]);
    }
  }

  lemma SoundRebinds(cfg: Config, s: Store, t: Key, c: string, states: seq<Store>, from: nat)
    requires from <= |states|
    requires forall i :: from <= i < |states| ==> PatchedAtMost(s, t, PrepareTool(cfg, c), states[i])
    requires Tools(s, cfg) == {t} && Credentials(s, cfg) == {Key(CredentialKind, c)}
    requires ValidId(t.id) && t.kind == ToolKind
    ensures SoundSince(cfg, s, states, from)
  {
    forall i | from <= i < |states| ensures Sound(cfg, s, states[i]) {
      SoundRebind(cfg, s, s, t, c, states[i]);
    }
  }

  /** `client.update` on the owned assistant. */
  method AttachAssistant(client: VapiClient, cfg: Config, a: Key, c: string, desired: Resource)
    returns (r: Result<(), VapiError>)
    requires client.Valid() && a.kind == AssistantKind && ValidId(a.id)
    requires Assistants(client.store, cfg) == {a} && Owned(client.store[a], cfg)
    requires Credentials(client.store, cfg) == {Key(CredentialKind, c)} && ValidId(c)
    requires OwnedAssistant(desired, cfg) && desired.name == cfg.assistantName
    requires desired.credentialIds == [c] && desired.serverCredential == Some(c)
    modifies client
    ensures client.Valid() && old(client.history) <= client.history
    ensures SoundSince(cfg, old(client.store), client.history, |old(client.history)|)
    ensures Sound(cfg, old(client.store), client.store)
    ensures r.Ok? ==> client.store == old(client.store)[a := desired]
    ensures old(client.faults) <= client.faults
    ensures client.faults == old(client.faults) ==> r.Ok?
  {
    hide SoundSince; hide Sound;
    ghost var s0, h0 := client.store, client.history;
    ghost var env;
    r, env := client.Update(a, desired);
    SoundAttaches(cfg, s0, a, c, desired, client.history, |h0|);
    SoundAttach(cfg, s0, s0, a, c, desired, client.store);
    if r.Ok? {
      UpdateIsVisible(s0[a], desired, env);
    }
  }

  /** `client.update` on the prepare tool. */
  method RebindTool(client: VapiClient, cfg: Config, t: Key, c: string) returns (r: Result<(), VapiError>)
    requires client.Valid() && t.kind == ToolKind && ValidId(t.id)
    requires Tools(client.store, cfg) == {t} && Credentials(client.store, cfg) == {Key(CredentialKind, c)}
    modifies client
    ensures client.Valid() && old(client.history) <= client.history
    ensures SoundSince(cfg, old(client.store), client.history, |old(client.history)|)
    ensures Sound(cfg, old(client.store), client.store)
    ensures r.Ok? ==> client.store == old(client.store)[t := PrepareTool(cfg, c)]
    ensures old(client.faults) <= client.faults
    ensures client.faults == old(client.faults) ==> r.Ok?
  {
    hide SoundSince; hide Sound;
    ghost var s0, h0 := client.store, client.history;
    ghost var env;
    r, env := client.Update(t, PrepareTool(cfg, c));
    SoundRebinds(cfg, s0, t, c, client.history, |h0|);
    SoundRebind(cfg, s0, s0, t, c, client.store);
    if r.Ok? {
      UpdateIsVisible(s0[t], PrepareTool(cfg, c), env);
    }
  }

  lemma SoundRecoverable(cfg: Config, a: Store, b: Store)
    requires Sound(cfg, a, b) && Recoverable(a, cfg)
    ensures Recoverable(b, cfg)
  {
  }

  lemma CompleteUnfolded(s: Store, cfg: Config, p: Provisioned)
    ensures Complete(s, cfg, p) ==>
              && Assistants(s, cfg) == {Key(AssistantKind, p.assistantId)}
              && s[Key(AssistantKind, p.assistantId)] == FinalAssistant(cfg, p.credentialId, p.toolId)
              && Credentials(s, cfg) == {Key(CredentialKind, p.credentialId)}
              && Tools(s, cfg) == {Key(ToolKind, p.toolId)}
              && s[Key(ToolKind, p.toolId)] == PrepareTool(cfg, p.credentialId)
  {
  }

  /** The first half of `provision_create`: the assistant, the credential, and the one attached to the other. */
  method EnsureAttached(client: VapiClient, cfg: Config) returns (r: Result<(Key, string), VapiError>)
    requires client.Valid()
    modifies client
    ensures client.Valid() && old(client.history) <= client.history
    ensures SoundSince(cfg, old(client.store), client.history, |old(client.history)|)
    ensures Sound(cfg, old(client.store), client.store)
    ensures r.Ok? ==> Attached(client.store, cfg, r.value.0, r.value.1)
    ensures old(client.faults) <= client.faults
    ensures Recoverable(old(client.store), cfg) && TokenUsable(cfg) && client.faults == old(client.faults) ==> r.Ok?
    ensures forall p :: r.Ok? && Complete(old(client.store), cfg, p) ==>
              && r.value == (Key(AssistantKind, p.assistantId), p.credentialId)
              && client.store == old(client.store)[r.value.0 := PreliminaryAssistant(cfg, Some(r.value.1))]
  {
    hide SoundSince, Sound, Recoverable, AttachedId, Complete, Matches, ValidId;
    ghost var s0, h, from := client.store, client.history, |client.history|;
    SoundRefl(cfg, s0, client.history);
    var assistant := EnsureAssistant(client, cfg);
    ghost var s1 := client.store;
    if assistant.Err? {
      return Err(assistant.error);
    }
    if Recoverable(s0, cfg) { SoundRecoverable(cfg, s0, s1); }
    var a := assistant.value.key;

    h := client.history;
    var credential := EnsureCredential(client, cfg, assistant.value);
    ghost var s2 := client.store;
    SoundJoin(cfg, s0, s1, s2, h, client.history, from);
    if credential.Err? {
      return Err(credential.error);
    }
    var c := credential.value;

    h := client.history;
    var attached := AttachAssistant(client, cfg, a, c, PreliminaryAssistant(cfg, Some(c)));
    SoundJoin(cfg, s0, s2, client.store, h, client.history, from);
    if attached.Err? {
      return Err(attached.error);
    }
    AllMatchesAfterPut(s2, cfg, a, PreliminaryAssistant(cfg, Some(c)));
    CompleteStays(s0, s1, s2, cfg, a, c);
    return Ok((a, c));
  }

  /** On a complete account the first two steps find what is there. */
  lemma CompleteStays(s0: Store, s1: Store, s2: Store, cfg: Config, a: Key, c: string)
    requires Assistants(s0, cfg) != {} ==> s1 == s0
    requires Credentials(s1, cfg) != {} ==> s2 == s1
    requires Assistants(s2, cfg) == {a} && Credentials(s2, cfg) == {Key(CredentialKind, c)}
    ensures forall p :: Complete(s0, cfg, p) ==>
              a == Key(AssistantKind, p.assistantId) && c == p.credentialId
              && s2 == s0
  {
    hide Complete, Matches;
    forall p | Complete(s0, cfg, p)
      ensures a == Key(AssistantKind, p.assistantId) && c == p.credentialId && s2 == s0
    {
      CompleteUnfolded(s0, cfg, p);
      assert Key(AssistantKind, p.assistantId) in {a};
      assert Key(CredentialKind, p.credentialId) in {Key(CredentialKind, c)};
    }
  }

  /** Where the first half ends. */
  ghost predicate Attached(s: Store, cfg: Config, a: Key, c: string) {
    && a.kind == AssistantKind && ValidId(a.id) && ValidId(c)
    && Assistants(s, cfg) == {a} && s[a] == PreliminaryAssistant(cfg, Some(c))
    && Credentials(s, cfg) == {Key(CredentialKind, c)} && s[Key(CredentialKind, c)].bearer
  }

  /** The last two writes of `provision_create`. */
  method FinishCreate(client: VapiClient, cfg: Config, a: Key, c: string, t: string) returns (r: Result<(), VapiError>)
    requires client.Valid() && Attached(client.store, cfg, a, c)
    requires Tools(client.store, cfg) == {Key(ToolKind, t)} && ValidId(t)
    modifies client
    ensures client.Valid() && old(client.history) <= client.history
    ensures SoundSince(cfg, old(client.store), client.history, |old(client.history)|)
    ensures Sound(cfg, old(client.store), client.store)
    ensures r.Ok? ==> client.store == old(client.store)[Key(ToolKind, t) := PrepareTool(cfg,
          c)][a := FinalAssistant(cfg, c, t)]
    ensures old(client.faults) <= client.faults
    ensures client.faults == old(client.faults) ==> r.Ok?
  {
    hide SoundSince, Sound, Recoverable;
    ghost var s0, from := client.store, |client.history|;
    r := RebindTool(client, cfg, Key(ToolKind, t), c);
    if r.Err? {
      return;
    }
    ghost var s1, h := client.store, client.history;
    AllMatchesAfterPut(s0, cfg, Key(ToolKind, t), PrepareTool(cfg, c));
    r := AttachAssistant(client, cfg, a, c, FinalAssistant(cfg, c, t));
    SoundJoin(cfg, s0, s1, client.store, h, client.history, from);
  }

  /** `provision_create`. From every account and under every environment:
      - success leaves exactly one object of each kind, attached to one another;
      - every state on the way (every crash point, failed runs included) keeps what is not owned untouched
        and deletes nothing, and is recoverable if the start was;
      - from a recoverable state, a run in which the environment does not misbehave succeeds;
      - on an account that is already complete, it returns the same identifiers and changes nothing. */
  method ProvisionCreate(client: VapiClient, cfg: Config) returns (r: Result<Provisioned, VapiError>)
    requires client.Valid()
    modifies client
    ensures client.Valid() && old(client.history) <= client.history
    ensures SoundSince(cfg, old(client.store), client.history, |old(client.history)|)
    ensures Sound(cfg, old(client.store), client.store)
    ensures r.Ok? ==> Complete(client.store, cfg, r.value)
    ensures old(client.faults) <= client.faults
    ensures Recoverable(old(client.store), cfg) && TokenUsable(cfg) && client.faults == old(client.faults) ==> r.Ok?
    ensures forall p :: r.Ok? && Complete(old(client.store), cfg, p) ==>
              r.value == p && client.store == old(client.store)
  {
    hide SoundSince, Sound, Recoverable, Complete;
    ghost var s0, h, from := client.store, client.history, |client.history|;
    var attached := EnsureAttached(client, cfg);
    ghost var s3 := client.store;
    if attached.Err? {
      return Err(attached.error);
    }
    if Recoverable(s0, cfg) { SoundRecoverable(cfg, s0, s3); }
    var (a, c) := attached.value;

    h := client.history;
    var tool := EnsureTool(client, cfg, c);
    ghost var s4 := client.store;
    SoundJoin(cfg, s0, s3, s4, h, client.history, from);
    if tool.Err? {
      return Err(tool.error);
    }
    var t := tool.value;

    h := client.history;
    var finished := FinishCreate(client, cfg, a, c, t);
    SoundJoin(cfg, s0, s4, client.store, h, client.history, from);
    if finished.Err? {
      return Err(finished.error);
    }
    CreateCompletes(s0, s3, s4, cfg, a, c, t);
    return Ok(Provisioned(a.id, t, c));
  }

  /** The second half of a create that got through. */
  lemma CreateCompletes(s0: Store, s3: Store, s4: Store, cfg: Config, a: Key, c: string, t: string)
    requires WellKinded(s3) && WellKinded(s4) && Attached(s3, cfg, a, c) && Attached(s4, cfg, a, c) && ValidId(t)
    requires Tools(s3, cfg) != {} ==> s4 == s3
    requires Tools(s4, cfg) == {Key(ToolKind, t)}
    requires forall p :: Complete(s0, cfg, p) ==>
               a.id == p.assistantId && c == p.credentialId && s3 == s0[a := PreliminaryAssistant(cfg, Some(c))]
    ensures
      var s6 := s4[Key(ToolKind, t) := PrepareTool(cfg, c)][a := FinalAssistant(cfg, c, t)];
      && Complete(s6, cfg, Provisioned(a.id, t, c))
      && forall p :: Complete(s0, cfg, p) ==> p == Provisioned(a.id, t, c) && s6 == s0
  {
    var tk := Key(ToolKind, t);
    AllMatchesAfterPut(s4, cfg, tk, PrepareTool(cfg, c));
    var s5 := s4[tk := PrepareTool(cfg, c)];
    AllMatchesAfterPut(s5, cfg, a, FinalAssistant(cfg, c, t));
    var s6 := s5[a := FinalAssistant(cfg, c, t)];
    forall p | Complete(s0, cfg, p)
      ensures p == Provisioned(a.id, t, c) && s6 == s0
    {
      AllMatchesAfterPut(s0, cfg, a, PreliminaryAssistant(cfg, Some(c)));
      assert Key(ToolKind, p.toolId) in Tools(s3, cfg);
      assert Key(ToolKind, p.toolId) in {tk};
    }
  }

  /** An account in which nothing sits under the owner's keys is recoverable. */
  lemma EmptyScopeIsRecoverable(s: Store, cfg: Config)
    requires WellKinded(s) && Assistants(s, cfg) == {} && Credentials(s, cfg) == {} && Tools(s, cfg) == {}
    ensures Recoverable(s, cfg)
  {
  }

  /** Any number of creates, each cut off at an arbitrary point: what is not owned is never touched, the keys
      only grow, and the account stays recoverable, so the next undisturbed create completes it. */
  lemma {:induction false} CrashedCreates(cfg: Config, states: seq<Store>)
    requires |states| > 0
    requires forall i :: 0 <= i < |states| - 1 ==> Sound(cfg, states[i], states[i + 1])
    ensures Sound(cfg, states[0], states[|states| - 1])
  {
    if |states| > 1 {
      var init := states[..|states| - 1];
      CrashedCreates(cfg, init);
      SoundTrans(cfg, init[0], init[|init| - 1], states[|states| - 1]);
    }
  }
}
