/** Updating and deleting what was provisioned (lambda/common/vapi_provisioning.py: `provision_update`,
    `provision_delete`). */
module VapiDelete {
  import opened Wrappers
  import opened VapiRemote
  import opened VapiProvisioning
  import opened PhysicalId

  // Update

  /** What must hold of the account for an update to write anything. */
  predicate UpdateAllowed(s: Store, old_: Config, p: Parsed, c: string) {
    var a, t, k := Key(AssistantKind, p.assistantId), Key(ToolKind, p.toolId), Key(CredentialKind, c);
    && a in s && OwnedAssistant(s[a], old_) && AttachedId(s[a]) == Ok(Some(c))
    && t in s && IsPrepareTool(s[t], old_) && s[t].credentialId == Some(c)
    && k in s && OwnedCredentialShape(s[k], old_)
    && (p.credentialId.Some? ==> p.credentialId == Some(c))
  }

  /** Nothing changes but the credential and the tool that the assistant names. */
  ghost predicate UpdateFrame(s: Store, p: Parsed, c: string, h: Store) {
    && h.Keys == s.Keys
    && forall k :: k in s && k != Key(CredentialKind, c) && k != Key(ToolKind, p.toolId) ==> h[k] == s[k]
  }

  /** What every state of an update satisfies: either nothing was written, or the ownership checks had all
      passed and only the credential and the tool were written. */
  ghost predicate UpdateSafe(s: Store, old_: Config, p: Parsed, h: Store) {
    h == s || exists c: string :: UpdateAllowed(s, old_, p, c) && UpdateFrame(s, p, c, h)
  }

  /** `provision_update`: the assistant is a customer's template by now and is never written. On success the
      tool is exactly the new one; the credential looks like the new one, and is the new one unless its
      PATCH was lost and the old one already looked like it (VapiRemote.UpdateIsDurableIff). */
  method ProvisionUpdate(client: VapiClient, old_: Config, new_: Config, physicalId: string)
    returns (r: Result<Provisioned, VapiError>, ghost env: UpdateEnv)
    requires client.Valid()
    modifies client
    ensures client.Valid() && old(client.history) <= client.history && client.posts == old(client.posts)
    ensures Parse(physicalId).Err? ==> r.Err? && client.history == old(client.history)
    ensures Parse(physicalId).Ok? ==>
              forall i :: |old(client.history)| <= i < |client.history| ==>
                UpdateSafe(old(client.store), old_, Parse(physicalId).value, client.history[i])
    ensures r.Ok? ==> UpdateDone(old(client.store), old_, new_, physicalId, r.value, env, client.store)
    ensures client.faults == old(client.faults) && UpdateReady(old(client.store), old_, new_, physicalId) ==> r.Ok?
  {
    hide AttachedId;
    env := UpdateEnv(Refused, false, Refused, false);
    if old_.transferUrl != new_.transferUrl {
      return Err(Failed("vapi_assistant_endpoint_change_requires_new_stack")), env;
    }
    var p :- Parse(physicalId);
    ParsedIds(physicalId);
    var c :- CheckUpdate(client, old_, p);
    var payload :- CredentialPayload(new_);
    var written, rotation := RotateAndRebind(client, old_, new_, p, c, payload);
    env := rotation;
    if written.Err? {
      return Err(written.error), env;
    }
    return Ok(Provisioned(p.assistantId, p.toolId, c)), env;
  }

  /** The two writes of `provision_update`. */
  method RotateAndRebind(client: VapiClient, old_: Config, new_: Config, p: Parsed, c: string, payload: Resource)
    returns (r: Result<(), VapiError>, ghost env: UpdateEnv)
    requires client.Valid() && UpdateAllowed(client.store, old_, p, c) && ValidId(c) && ValidId(p.toolId)
    requires CredentialPayload(new_) == Ok(payload)
    modifies client
    ensures client.Valid() && old(client.history) <= client.history && client.posts == old(client.posts)
    ensures forall i ::
              |old(client.history)| <= i < |client.history|
              ==> UpdateSafe(old(client.store), old_, p, client.history[i])
    ensures r.Ok? ==> Rotated(old(client.store), new_, p, c, env, client.store)
    ensures old(client.faults) <= client.faults && (client.faults == old(client.faults) ==> r.Ok?)
  {
    hide UpdateSafe, UpdateRun, AttachedId;
    ghost var s0, h0 := client.store, client.history;
    r, env := client.Update(Key(CredentialKind, c), payload);
    ghost var s1, h1 := client.store, client.history;
    UpdateSafePatches(s0, s0, old_, p, c, Key(CredentialKind, c), payload, h1, |h0|);
    if r.Err? {
      return;
    }
    var rebound, env2 := client.Update(Key(ToolKind, p.toolId), PrepareTool(new_, c));
    UpdateSafePatches(s0, s1, old_, p, c, Key(ToolKind, p.toolId), PrepareTool(new_, c), client.history, |h1|);
    assert forall i :: |h0| <= i < |h1| ==> client.history[i] == h1[i];
    if rebound.Err? {
      return rebound, env;
    }
    UpdateIsVisible(s1[Key(ToolKind, p.toolId)], PrepareTool(new_, c), env2);
  }

  /** The credential was written as the environment had it, then the tool exactly. */
  ghost predicate Rotated(s: Store, new_: Config, p: Parsed, c: string, env: UpdateEnv, h: Store) {
    && TokenUsable(new_) && Key(CredentialKind, c) in s
    && var ck, tk := Key(CredentialKind, c), Key(ToolKind, p.toolId);
       var rotation := UpdateRun(s[ck], CredentialPayload(new_).value, env);
       rotation.0.Ok? && h == s[ck := rotation.1][tk := PrepareTool(new_, c)]
  }

  /** What a successful update has done to the account. */
  ghost predicate UpdateDone(s: Store, old_: Config, new_: Config, physicalId: string, q: Provisioned,
                             env: UpdateEnv, h: Store) {
    && Parse(physicalId).Ok? && TokenUsable(new_)
    && Parse(physicalId).value.assistantId == q.assistantId && Parse(physicalId).value.toolId == q.toolId
    && UpdateAllowed(s, old_, Parse(physicalId).value, q.credentialId)
    && Rotated(s, new_, Parse(physicalId).value, q.credentialId, env, h)
  }

  /** An account and a request that an undisturbed update gets through. */
  ghost predicate UpdateReady(s: Store, old_: Config, new_: Config, physicalId: string) {
    && old_.transferUrl == new_.transferUrl && TokenUsable(new_) && Parse(physicalId).Ok?
    && exists c :: UpdateAllowed(s, old_, Parse(physicalId).value, c)
  }

  lemma UpdateSafePatches(s0: Store, s: Store, old_: Config, p: Parsed, c: string, k: Key, desired: Resource,
                          states: seq<Store>, from: nat)
    requires from <= |states| && UpdateAllowed(s0, old_, p, c) && UpdateFrame(s0, p, c, s)
    requires k == Key(CredentialKind, c) || k == Key(ToolKind, p.toolId)
    requires forall i :: from <= i < |states| ==> PatchedAtMost(s, k, desired, states[i])
    ensures forall i :: from <= i < |states| ==> UpdateSafe(s0, old_, p, states[i])
  {
    forall i | from <= i < |states| ensures UpdateSafe(s0, old_, p, states[i]) {
      assert UpdateFrame(s0, p, c, states[i]);
    }
  }

  lemma ParsedIds(physicalId: string)
    requires Parse(physicalId).Ok?
    ensures ValidId(Parse(physicalId).value.assistantId) && ValidId(Parse(physicalId).value.toolId)
  {
  }

  /** The reads and ownership checks of `provision_update`. */
  method CheckUpdate(client: VapiClient, old_: Config, p: Parsed) returns (r: Result<string, VapiError>)
    requires client.Valid() && ValidId(p.assistantId) && ValidId(p.toolId)
    modifies client`faults
    ensures client.Valid() && old(client.faults) <= client.faults
    ensures r.Ok? ==> UpdateAllowed(client.store, old_, p, r.value) && ValidId(r.value)
    ensures client.faults == old(client.faults) && (exists c :: UpdateAllowed(client.store, old_, p, c)) ==> r.Ok?
  {
    var assistant :- client.Get(Key(AssistantKind, p.assistantId));
    var tool :- client.Get(Key(ToolKind, p.toolId));
    if assistant.None? || tool.None? {
      return Err(Failed("vapi_owned_resource_missing"));
    }
    if !OwnedAssistant(assistant.value, old_) {
      return Err(Failed("vapi_assistant_ownership_conflict"));
    }
    if !IsPrepareTool(tool.value, old_) {
      return Err(Failed("vapi_prepare_tool_ownership_conflict"));
    }
    var attached :- AttachedId(assistant.value);
    if attached.None? {
      return Err(Failed("vapi_owned_resource_missing"));
    }
    var c := attached.value;
    if p.credentialId.Some? && p.credentialId.value != c {
      return Err(Failed("vapi_credential_ownership_conflict"));
    }
    var credential :- client.Get(Key(CredentialKind, c));
    if credential.None? {
      return Err(Failed("vapi_owned_resource_missing"));
    }
    if !OwnedCredentialShape(credential.value, old_) {
      return Err(Failed("vapi_credential_ownership_conflict"));
    }
    if tool.value.credentialId != Some(c) {
      return Err(Failed("vapi_prepare_tool_ownership_conflict"));
    }
    return Ok(c);
  }

  // Delete

  function OwnedAssistants(s: Store, cfg: Config): set<Key> {
    set k | k in s && s[k].Assistant? && s[k].name == cfg.assistantName && OwnedAssistant(s[k], cfg)
  }

  function OwnedCredentials(s: Store, cfg: Config): set<Key> {
    set k | k in s && OwnedCredentialShape(s[k], cfg)
  }

  /** The prepare tools that the sweep can tell belong to the owner: bound to one of the credentials. */
  function BoundTools(s: Store, cfg: Config, credentials: set<Key>): set<Key> {
    set k | k in s && IsPrepareTool(s[k], cfg) && s[k].credentialId.Some?
            && Key(CredentialKind, s[k].credentialId.value) in credentials
  }

  /** What the owner-key sweep deletes. */
  function SweepTargets(s: Store, cfg: Config): set<Key> {
    OwnedAssistants(s, cfg) + BoundTools(s, cfg, OwnedCredentials(s, cfg)) + OwnedCredentials(s, cfg)
  }

  function Swept(s: Store, cfg: Config): Store {
    s - SweepTargets(s, cfg)
  }

  predicate ValidIds(keys: set<Key>) {
    forall k :: k in keys ==> ValidId(k.id)
  }

  /** `h` is `s` with some owned objects deleted and nothing else changed. */
  ghost predicate Trimmed(cfg: Config, s: Store, h: Store) {
    && (forall k :: k in h ==> k in s && h[k] == s[k])
    && (forall k :: k in s && k !in h ==> Owned(s[k], cfg))
  }

  ghost predicate TrimmedSince(cfg: Config, s: Store, states: seq<Store>, from: nat) {
    from <= |states| && forall i :: from <= i < |states| ==> Trimmed(cfg, s, states[i])
  }

  lemma TrimmedRefl(cfg: Config, s: Store, states: seq<Store>)
    ensures Trimmed(cfg, s, s) && TrimmedSince(cfg, s, states, |states|)
  {
  }

  lemma TrimmedJoin(cfg: Config, a: Store, b: Store, c: Store, before: seq<Store>, states: seq<Store>, from: nat)
    requires TrimmedSince(cfg, a, before, from) && Trimmed(cfg, a, b)
    requires before <= states && TrimmedSince(cfg, b, states, |before|) && Trimmed(cfg, b, c)
    ensures TrimmedSince(cfg, a, states, from) && Trimmed(cfg, a, c)
  {
    forall i | from <= i < |states| ensures Trimmed(cfg, a, states[i]) {
      if i < |before| {
        assert states[i] == before[i];
      } else {
        assert Trimmed(cfg, b, states[i]);
      }
    }
  }

  /** `h` is `s` with some of `keys` deleted and nothing else changed. */
  ghost predicate Cut(s: Store, keys: set<Key>, h: Store) {
    && (forall k :: k in h ==> k in s && h[k] == s[k])
    && (forall k :: k in s && k !in h ==> k in keys)
  }

  ghost predicate CutSince(s: Store, keys: set<Key>, states: seq<Store>, from: nat) {
    from <= |states| && forall i :: from <= i < |states| ==> Cut(s, keys, states[i])
  }

  lemma CutRefl(s: Store, keys: set<Key>, states: seq<Store>)
    ensures Cut(s, keys, s) && CutSince(s, keys, states, |states|)
  {
  }

  lemma CutJoin(a: Store, b: Store, c: Store, keys: set<Key>, k: Key, before: seq<Store>, states: seq<Store>, from: nat)
    requires CutSince(a, keys, before, from) && Cut(a, keys, b) && k in keys
    requires before <= states && CutSince(b, {k}, states, |before|) && Cut(b, {k}, c)
    ensures CutSince(a, keys, states, from) && Cut(a, keys, c)
  {
    forall i | from <= i < |states| ensures Cut(a, keys, states[i]) {
      if i < |before| {
        assert states[i] == before[i];
      } else {
        assert Cut(b, {k}, states[i]);
      }
    }
  }

  lemma CutIsTrimmed(cfg: Config, s: Store, keys: set<Key>, h: Store, states: seq<Store>, from: nat)
    requires forall k :: k in keys && k in s ==> Owned(s[k], cfg)
    requires CutSince(s, keys, states, from) && Cut(s, keys, h)
    ensures TrimmedSince(cfg, s, states, from) && Trimmed(cfg, s, h)
  {
    hide Owned;
    forall i | from <= i < |states| ensures Trimmed(cfg, s, states[i]) {
      assert Cut(s, keys, states[i]);
    }
  }

  /** One of the three deletion loops of the sweep. */
  method DeleteAll(client: VapiClient, keys: set<Key>) returns (r: Result<(), VapiError>)
    requires client.Valid()
    modifies client
    ensures client.Valid() && old(client.history) <= client.history
    ensures CutSince(old(client.store), keys, client.history, |old(client.history)|)
            && Cut(old(client.store), keys, client.store)
    ensures r.Ok? ==> client.store == old(client.store) - keys && ValidIds(keys)
    ensures old(client.faults) <= client.faults
    ensures client.faults == old(client.faults) && ValidIds(keys) ==> r.Ok?
  {
    hide CutSince;
    ghost var s0, from := client.store, |client.history|;
    CutRefl(s0, keys, client.history);
    var todo := keys;
    while todo != {}
      invariant client.Valid() && old(client.history) <= client.history
      invariant todo <= keys && client.store == s0 - (keys - todo) && ValidIds(keys - todo)
      invariant CutSince(s0, keys, client.history, from) && Cut(s0, keys, client.store)
      invariant old(client.faults) <= client.faults
      decreases todo
    {
      ghost var s, h := client.store, client.history;
      var k :| k in todo;
      var deleted := DeleteOne(client, k);
      CutJoin(s0, s, client.store, keys, k, h, client.history, from);
      if deleted.Err? {
        return deleted;
      }
      todo := todo - {k};
    }
    return Ok(());
  }

  method DeleteOne(client: VapiClient, k: Key) returns (r: Result<(), VapiError>)
    requires client.Valid()
    modifies client
    ensures client.Valid() && old(client.history) <= client.history
    ensures CutSince(old(client.store), {k}, client.history, |old(client.history)|)
            && Cut(old(client.store), {k}, client.store)
    ensures r.Ok? ==> client.store == old(client.store) - {k} && ValidId(k.id)
    ensures old(client.faults) <= client.faults
    ensures client.faults == old(client.faults) && ValidId(k.id) ==> r.Ok?
  {
    r := client.Delete(k);
  }

  datatype Targets = Targets(assistants: set<Key>, tools: set<Key>, credentials: set<Key>)

  /** The three scans of the `pending` branch. */
  method ScanTargets(client: VapiClient, cfg: Config) returns (r: Result<Targets, VapiError>)
    requires client.Valid()
    modifies client`faults
    ensures client.Valid() && old(client.faults) <= client.faults
    ensures r.Ok? ==> r.value == Targets(OwnedAssistants(client.store, cfg),
                                         BoundTools(client.store, cfg, OwnedCredentials(client.store, cfg)),
                                         OwnedCredentials(client.store, cfg))
    ensures r.Ok? ==> ValidIds(OwnedCredentials(client.store, cfg))
    ensures client.faults == old(client.faults) && ValidIds(OwnedCredentials(client.store, cfg)) ==> r.Ok?
  {
    var listedAssistants :- client.List(AssistantKind);
    var assistants := OwnedAssistants(listedAssistants, cfg);
    var listedCredentials :- client.List(CredentialKind);
    var credentials := OwnedCredentials(listedCredentials, cfg);
    assert assistants == OwnedAssistants(client.store, cfg);
    assert credentials == OwnedCredentials(client.store, cfg);
    if exists k :: k in credentials && !ValidId(k.id) {
      return Err(Failed("vapi_resource_id_invalid"));
    }
    var listedTools :- client.List(ToolKind);
    var tools := BoundTools(listedTools, cfg, credentials);
    assert tools == BoundTools(client.store, cfg, credentials);
    return Ok(Targets(assistants, tools, credentials));
  }

  /** `h` is `s` with some owned objects deleted in the sweep's order: assistants, then the tools bound to the
      owner's credentials, then these credentials. */
  ghost predicate SweptInOrder(cfg: Config, s: Store, h: Store) {
    var assistants, credentials := OwnedAssistants(s, cfg), OwnedCredentials(s, cfg);
    var tools := BoundTools(s, cfg, credentials);
    && Trimmed(cfg, s, h)
    && ((exists k :: k in credentials && k !in h) ==> h.Keys !! tools)
    && ((exists k :: k in tools + credentials && k !in h) ==> h.Keys !! assistants)
  }

  ghost predicate SweptInOrderSince(cfg: Config, s: Store, states: seq<Store>, from: nat) {
    from <= |states| && forall i :: from <= i < |states| ==> SweptInOrder(cfg, s, states[i])
  }

  /** One of the sweep's loops: the account it starts in and what it deletes. */
  ghost predicate Stage(cfg: Config, s: Store, t: Store, keys: set<Key>) {
    var assistants, credentials := OwnedAssistants(s, cfg), OwnedCredentials(s, cfg);
    var tools := BoundTools(s, cfg, credentials);
    || (t == s && keys == assistants)
    || (t == s - assistants && keys == tools)
    || (t == s - assistants - tools && keys == credentials)
  }

  lemma StageInOrder(cfg: Config, s: Store, t: Store, keys: set<Key>, h: Store)
    requires Stage(cfg, s, t, keys) && Cut(t, keys, h)
    ensures SweptInOrder(cfg, s, h)
  {
    var assistants, credentials := OwnedAssistants(s, cfg), OwnedCredentials(s, cfg);
    var tools := BoundTools(s, cfg, credentials);
    assert forall k :: k in assistants + tools + credentials ==> k in s && Owned(s[k], cfg);
    assert assistants !! tools && assistants !! credentials && tools !! credentials;
    hide OwnedAssistants, OwnedCredentials, BoundTools, Owned;
  }

  lemma StageJoin(cfg: Config, s: Store, t: Store, keys: set<Key>, h: Store, before: seq<Store>, states: seq<Store>,
                  from: nat)
    requires SweptInOrderSince(cfg, s, before, from) && Stage(cfg, s, t, keys)
    requires before <= states && CutSince(t, keys, states, |before|) && Cut(t, keys, h)
    ensures SweptInOrderSince(cfg, s, states, from) && SweptInOrder(cfg, s, h)
  {
    hide SweptInOrder, Stage, Cut;
    StageInOrder(cfg, s, t, keys, h);
    forall i | from <= i < |states| ensures SweptInOrder(cfg, s, states[i]) {
      if i < |before| {
        assert states[i] == before[i];
      } else {
        StageInOrder(cfg, s, t, keys, states[i]);
      }
    }
  }

  lemma InOrderIsTrimmed(cfg: Config, s: Store, h: Store, states: seq<Store>, from: nat)
    requires SweptInOrderSince(cfg, s, states, from) && SweptInOrder(cfg, s, h)
    ensures TrimmedSince(cfg, s, states, from) && Trimmed(cfg, s, h)
  {
    hide OwnedAssistants, OwnedCredentials, BoundTools, Trimmed;
    forall i | from <= i < |states| ensures Trimmed(cfg, s, states[i]) {
      assert SweptInOrder(cfg, s, states[i]);
    }
  }

  lemma InOrderRefl(cfg: Config, s: Store, states: seq<Store>)
    ensures SweptInOrder(cfg, s, s) && SweptInOrderSince(cfg, s, states, |states|)
  {
    assert forall k :: k in OwnedCredentials(s, cfg) + BoundTools(s, cfg, OwnedCredentials(s, cfg)) ==> k in s;
  }

  /** The `pending` branch: delete by the deterministic owner keys. Left alone it fails exactly when one of the
      objects to delete has a malformed identifier. */
  method Sweep(client: VapiClient, cfg: Config) returns (r: Result<(), VapiError>)
    requires client.Valid()
    modifies client
    ensures client.Valid() && old(client.history) <= client.history
    ensures SweptInOrderSince(cfg, old(client.store), client.history, |old(client.history)|)
    ensures SweptInOrder(cfg, old(client.store), client.store)
    ensures r.Ok? ==> client.store == Swept(old(client.store), cfg) && ValidIds(SweepTargets(old(client.store), cfg))
    ensures old(client.faults) <= client.faults
    ensures client.faults == old(client.faults) && ValidIds(SweepTargets(old(client.store), cfg)) ==> r.Ok?
  {
    hide SweptInOrder, SweptInOrderSince, CutSince, Cut, OwnedAssistants, OwnedCredentials, BoundTools, WellKinded;
    ghost var s0, from := client.store, |client.history|;
    ghost var h := client.history;
    InOrderRefl(cfg, s0, h);
    var targets :- ScanTargets(client, cfg);
    r := DeleteAll(client, targets.assistants);
    StageJoin(cfg, s0, s0, targets.assistants, client.store, h, client.history, from);
    if r.Err? {
      return;
    }
    ghost var s1 := client.store;
    h := client.history;
    r := DeleteAll(client, targets.tools);
    StageJoin(cfg, s0, s1, targets.tools, client.store, h, client.history, from);
    if r.Err? {
      return;
    }
    ghost var s2 := client.store;
    h := client.history;
    r := DeleteAll(client, targets.credentials);
    StageJoin(cfg, s0, s2, targets.credentials, client.store, h, client.history, from);
  }

  /** The credential the physical-id branch works with: the one in the identifier, else the one the assistant
      is attached to, else the one the tool is bound to. */
  function CredentialIdOf(p: Parsed, assistant: Option<Resource>, tool: Option<Resource>): Result<Option<string>,
      VapiError>
    requires assistant.Some? ==> assistant.value.Assistant?
    requires tool.Some? ==> tool.value.Tool?
  {
    if p.credentialId.Some? then Ok(p.credentialId)
    else
      var attached :- if assistant.Some? then AttachedId(assistant.value) else Ok(None);
      if attached.Some? then Ok(attached)
      else if tool.Some? && tool.value.credentialId.Some? then
        if ValidId(tool.value.credentialId.value) then Ok(tool.value.credentialId)
        else Err(Failed("vapi_resource_id_invalid"))
      else Ok(None)
  }

  /** The ownership checks before anything is deleted, in the order the code makes them. */
  function DeleteConflict(cfg: Config, p: Parsed, assistant: Option<Resource>, tool: Option<Resource>,
                          credential: Option<Resource>, c: Option<string>): Result<(), VapiError>
    requires assistant.Some? ==> assistant.value.Assistant?
    requires tool.Some? ==> tool.value.Tool?
  {
    if assistant.Some? && !OwnedAssistant(assistant.value, cfg) then
      Err(Failed("vapi_assistant_ownership_conflict"))
    else if credential.Some? && !OwnedCredentialShape(credential.value, cfg) then
      Err(Failed("vapi_credential_ownership_conflict"))
    else if tool.Some? && (!IsPrepareTool(tool.value, cfg) || c.None? || tool.value.credentialId != c) then
      Err(Failed("vapi_prepare_tool_ownership_conflict"))
    else if assistant.Some? && tool.Some? && p.toolId !in assistant.value.toolIds then
      Err(Failed("vapi_prepare_tool_ownership_conflict"))
    else if assistant.Some? then
      var attached :- AttachedId(assistant.value);
      if credential.Some? && attached != c then Err(Failed("vapi_credential_ownership_conflict")) else Ok(())
    else Ok(())
  }

  /** The objects the physical identifier names, as far as they still exist. */
  function Named(s: Store, p: Parsed, c: Option<string>): set<Key> {
    {Key(AssistantKind, p.assistantId), Key(ToolKind, p.toolId)}
    + (if c.Some? then {Key(CredentialKind, c.value)} else {})
  }

  function Read(s: Store, k: Key): Option<Resource> {
    if k in s then Some(Visible(s[k])) else None
  }

  /** The credential the identifier leads to in this account. */
  function CredentialIn(s: Store, p: Parsed): Result<Option<string>, VapiError>
    requires WellKinded(s)
  {
    CredentialIdOf(p, Read(s, Key(AssistantKind, p.assistantId)), Read(s, Key(ToolKind, p.toolId)))
  }

  /** What a delete that returns leaves behind, as a function of the account it started in. */
  function Deleted(s: Store, cfg: Config, p: Parsed, c: Option<string>): Store {
    Swept(s - Named(s, p, c), cfg)
  }

  /** `provision_delete`. Every state on the way, failed runs included, is the starting account with only
      owned objects removed, for the pending id in the sweep's order; a run that returns leaves exactly
      `Deleted` (or `Swept` for the pending id); and an undisturbed run returns if and only if the account
      is one that nothing stops it in. */
  method ProvisionDelete(client: VapiClient, cfg: Config, physicalId: string) returns (r: Result<(), VapiError>)
    requires client.Valid()
    modifies client
    ensures client.Valid() && old(client.history) <= client.history
    ensures TrimmedSince(cfg, old(client.store), client.history, |old(client.history)|)
    ensures physicalId == PENDING ==> SweptInOrderSince(cfg, old(client.store), client.history, |old(client.history)|)
    ensures r.Ok? && physicalId == PENDING ==> client.store == Swept(old(client.store), cfg)
    ensures r.Ok? && physicalId != PENDING ==>
              && Parse(physicalId).Ok? && CredentialIn(old(client.store), Parse(physicalId).value).Ok?
              && client.store == Deleted(old(client.store), cfg, Parse(physicalId).value,
                                         CredentialIn(old(client.store), Parse(physicalId).value).value)
    ensures client.faults == old(client.faults) ==> (r.Ok? <==> Unhindered(old(client.store), cfg, physicalId))
    ensures client.faults == old(client.faults) && physicalId == PENDING && Recoverable(old(client.store), cfg)
            ==> r.Ok?
    ensures client.faults == old(client.faults) ==>
              forall q :: physicalId == Render(q) && Deletable(old(client.store), cfg, q) ==> r.Ok?
  {
    hide Trimmed, TrimmedSince, SweptInOrder, SweptInOrderSince, Deletable, Recoverable, SweepTargets, Render,
         Startable;
    PendingIsNoRendering();
    ghost var s0, h := client.store, client.history;
    TrimmedRefl(cfg, s0, h);
    if physicalId == PENDING {
      if Recoverable(s0, cfg) {
        RecoverableIds(s0, cfg);
      }
      r := Sweep(client, cfg);
      InOrderIsTrimmed(cfg, s0, client.store, client.history, |h|);
      return;
    }
    forall q | physicalId == Render(q) && Deletable(s0, cfg, q)
      ensures Parse(physicalId).Ok? && Startable(s0, cfg, Parse(physicalId).value)
    {
      DeletableIsStartable(s0, cfg, physicalId, q);
    }
    var p :- Parse(physicalId);
    ParsedIds(physicalId);
    r := DeleteByIds(client, cfg, p);
  }

  /** The named objects pass the ownership checks. */
  ghost predicate ChecksPass(s: Store, cfg: Config, p: Parsed) {
    && WellKinded(s) && CredentialIn(s, p).Ok?
    && var c := CredentialIn(s, p).value;
       && (c.Some? ==> ValidId(c.value))
       && DeleteConflict(cfg, p, Read(s, Key(AssistantKind, p.assistantId)), Read(s, Key(ToolKind, p.toolId)),
                         if c.Some? then Read(s, Key(CredentialKind, c.value)) else None, c).Ok?
  }

  /** Nothing in the account stops a delete of `p`. */
  ghost predicate Startable(s: Store, cfg: Config, p: Parsed) {
    ChecksPass(s, cfg, p) && ValidIds(SweepTargets(s - Named(s, p, CredentialIn(s, p).value), cfg))
  }

  /** Nothing in the account stops a delete with this physical identifier. */
  ghost predicate Unhindered(s: Store, cfg: Config, physicalId: string) {
    if physicalId == PENDING then ValidIds(SweepTargets(s, cfg))
    else Parse(physicalId).Ok? && Startable(s, cfg, Parse(physicalId).value)
  }

  /** What the physical-id branch read: the credential id and which of the named objects exist. */
  datatype Reading = Reading(credentialId: Option<string>, assistant: bool, tool: bool, credential: bool)

  /** The reading is that of this account, and every object read is owned. */
  predicate ReadIn(s: Store, cfg: Config, p: Parsed, reading: Reading)
    requires WellKinded(s)
  {
    var c := reading.credentialId;
    var a, t, k := Key(AssistantKind, p.assistantId), Key(ToolKind, p.toolId),
        Key(CredentialKind, if c.Some? then c.value else "");
    && CredentialIn(s, p) == Ok(c) && (c.Some? ==> ValidId(c.value))
    && (reading.assistant <==> a in s) && (reading.tool <==> t in s) && (reading.credential <==> c.Some? && k in s)
    && (reading.assistant ==> Owned(s[a], cfg)) && (reading.tool ==> Owned(s[t], cfg))
        && (reading.credential ==> Owned(s[k], cfg))
  }

  /** The reads and ownership checks of the physical-id branch. */
  method ReadNamed(client: VapiClient, cfg: Config, p: Parsed) returns (r: Result<Reading, VapiError>)
    requires client.Valid() && ValidId(p.assistantId) && ValidId(p.toolId)
    modifies client`faults
    ensures client.Valid() && old(client.faults) <= client.faults
    ensures r.Ok? ==> ReadIn(client.store, cfg, p, r.value)
    ensures r.Ok? ==> ChecksPass(client.store, cfg, p)
    ensures client.faults == old(client.faults) && ChecksPass(client.store, cfg, p) ==> r.Ok?
  {
    hide AttachedId;
    var assistant :- client.Get(Key(AssistantKind, p.assistantId));
    var tool :- client.Get(Key(ToolKind, p.toolId));
    var c :- CredentialIdOf(p, assistant, tool);
    var credential: Option<Resource> := None;
    if c.Some? {
      credential :- client.Get(Key(CredentialKind, c.value));
    }
    var _ :- DeleteConflict(cfg, p, assistant, tool, credential, c);
    ConflictFree(client.store, cfg, p, c);
    return Ok(Reading(c, assistant.Some?, tool.Some?, credential.Some?));
  }

  /** Deletes a named object if it was read. */
  method DeleteIf(client: VapiClient, cfg: Config, present: bool, k: Key) returns (r: Result<(), VapiError>)
    requires client.Valid() && (present ==> ValidId(k.id))
    requires present && k in client.store ==> Owned(client.store[k], cfg)
    modifies client
    ensures client.Valid() && old(client.history) <= client.history
    ensures TrimmedSince(cfg, old(client.store), client.history, |old(client.history)|)
    ensures Trimmed(cfg, old(client.store), client.store)
    ensures r.Ok? ==> client.store == if present then old(client.store) - {k} else old(client.store)
    ensures old(client.faults) <= client.faults
    ensures client.faults == old(client.faults) ==> r.Ok?
  {
    ghost var s, h := client.store, client.history;
    TrimmedRefl(cfg, s, h);
    r := Ok(());
    if present {
      r := DeleteOne(client, k);
      CutIsTrimmed(cfg, s, {k}, client.store, client.history, |h|);
    }
  }

  /** The three deletions of the physical-id branch. */
  method DeleteNamed(client: VapiClient, cfg: Config, p: Parsed, reading: Reading) returns (r: Result<(), VapiError>)
    requires client.Valid() && ValidId(p.assistantId) && ValidId(p.toolId) && ReadIn(client.store, cfg, p, reading)
    modifies client
    ensures client.Valid() && old(client.history) <= client.history
    ensures TrimmedSince(cfg, old(client.store), client.history, |old(client.history)|)
    ensures Trimmed(cfg, old(client.store), client.store)
    ensures r.Ok? ==> client.store == old(client.store) - Named(old(client.store), p, reading.credentialId)
    ensures old(client.faults) <= client.faults
    ensures client.faults == old(client.faults) ==> r.Ok?
  {
    hide TrimmedSince, Trimmed, Owned, Named;
    ghost var s0, h, from := client.store, client.history, |client.history|;
    TrimmedRefl(cfg, s0, h);
    r := DeleteIf(client, cfg, reading.assistant, Key(AssistantKind, p.assistantId));
    TrimmedJoin(cfg, s0, s0, client.store, h, client.history, from);
    if r.Err? {
      return;
    }
    ghost var s1 := client.store;
    h := client.history;
    r := DeleteIf(client, cfg, reading.tool, Key(ToolKind, p.toolId));
    TrimmedJoin(cfg, s0, s1, client.store, h, client.history, from);
    if r.Err? {
      return;
    }
    ghost var s2 := client.store;
    h := client.history;
    var credentialId := if reading.credentialId.Some? then reading.credentialId.value else "";
    r := DeleteIf(client, cfg, reading.credential, Key(CredentialKind, credentialId));
    TrimmedJoin(cfg, s0, s2, client.store, h, client.history, from);
    if r.Ok? {
      NamedGone(s0, s1, s2, client.store, p, reading);
    }
  }

  /** The physical-id branch: read and check the named objects, delete them, then sweep the owner keys. */
  method DeleteByIds(client: VapiClient, cfg: Config, p: Parsed) returns (r: Result<(), VapiError>)
    requires client.Valid() && ValidId(p.assistantId) && ValidId(p.toolId)
    modifies client
    ensures client.Valid() && old(client.history) <= client.history
    ensures TrimmedSince(cfg, old(client.store), client.history, |old(client.history)|)
    ensures r.Ok? ==> CredentialIn(old(client.store), p).Ok?
                      && client.store == Deleted(old(client.store), cfg, p, CredentialIn(old(client.store), p).value)
    ensures r.Ok? ==> Startable(old(client.store), cfg, p)
    ensures client.faults == old(client.faults) && Startable(old(client.store), cfg, p) ==> r.Ok?
  {
    hide TrimmedSince, Trimmed, SweptInOrder, SweptInOrderSince, SweepTargets, CredentialIn, DeleteConflict, Owned,
         Named, Swept, ChecksPass;
    ghost var s0, h, from := client.store, client.history, |client.history|;
    TrimmedRefl(cfg, s0, h);
    var reading :- ReadNamed(client, cfg, p);
    r := DeleteNamed(client, cfg, p, reading);
    if r.Err? {
      return;
    }
    ghost var s1 := client.store;
    h := client.history;
    r := Sweep(client, cfg);
    InOrderIsTrimmed(cfg, s1, client.store, client.history, |h|);
    TrimmedJoin(cfg, s0, s1, client.store, h, client.history, from);
  }

  lemma NamedGone(s0: Store, s1: Store, s2: Store, s3: Store, p: Parsed, reading: Reading)
    requires s1 == if reading.assistant then s0 - {Key(AssistantKind, p.assistantId)} else s0
    requires s2 == if reading.tool then s1 - {Key(ToolKind, p.toolId)} else s1
    requires reading.credential ==> reading.credentialId.Some?
    requires s3 == if reading.credential then s2 - {Key(CredentialKind, reading.credentialId.value)} else s2
    requires reading.assistant <==> Key(AssistantKind, p.assistantId) in s0
    requires reading.tool <==> Key(ToolKind, p.toolId) in s0
    requires reading.credential <==>
               reading.credentialId.Some? && Key(CredentialKind, reading.credentialId.value) in s0
    ensures s3 == s0 - Named(s0, p, reading.credentialId)
  {
  }

  /** The checks cover every named object that exists. */
  lemma ConflictFree(s: Store, cfg: Config, p: Parsed, c: Option<string>)
    requires WellKinded(s)
    requires DeleteConflict(cfg, p, Read(s, Key(AssistantKind, p.assistantId)), Read(s, Key(ToolKind, p.toolId)),
                            if c.Some? then Read(s, Key(CredentialKind, c.value)) else None, c).Ok?
    ensures forall k :: k in Named(s, p, c) && k in s ==> Owned(s[k], cfg)
  {
  }

  lemma RecoverableIds(s: Store, cfg: Config)
    requires Recoverable(s, cfg)
    ensures ValidIds(SweepTargets(s, cfg))
  {
    RecoverableMembers(s, cfg);
    forall k | k in SweepTargets(s, cfg) ensures ValidId(k.id) {
      assert k in Assistants(s, cfg) || k in Credentials(s, cfg) || k in Tools(s, cfg);
    }
  }

  lemma PendingIsNoRendering()
    ensures forall q :: Render(q) != PENDING
  {
    forall q ensures Render(q) != PENDING {
      assert Render(q)[14] == 'v' && PENDING[14] == 'p';
    }
  }

  // What delete guarantees

  /** A state an interrupted delete of `p` can leave: nothing owned exists beside the three named objects,
      and those of them that exist are still attached to one another. */
  ghost predicate Deletable(s: Store, cfg: Config, p: Provisioned) {
    var a, t, c := Key(AssistantKind, p.assistantId), Key(ToolKind, p.toolId), Key(CredentialKind, p.credentialId);
    && WellKinded(s) && ValidId(p.assistantId) && ValidId(p.toolId) && ValidId(p.credentialId)
    && OwnedAssistants(s, cfg) <= {a} && OwnedCredentials(s, cfg) <= {c} && Tools(s, cfg) <= {t}
    && (a in s ==>
      OwnedAssistant(s[a], cfg) && AttachedId(s[a]) == Ok(Some(p.credentialId))
      && p.toolId in s[a].toolIds)
    && (t in s ==> IsPrepareTool(s[t], cfg) && s[t].credentialId == Some(p.credentialId))
    && (c in s ==> OwnedCredentialShape(s[c], cfg))
  }

  lemma DeletableIsStartable(s: Store, cfg: Config, physicalId: string, q: Provisioned)
    requires Deletable(s, cfg, q) && physicalId == Render(q)
    ensures Parse(physicalId) == Ok(Parsed(q.assistantId, q.toolId, Some(q.credentialId)))
    ensures Startable(s, cfg, Parse(physicalId).value)
  {
    ParseIsInverse(physicalId, q);
    var c := Some(q.credentialId);
    var s1 := s - Named(s, Parsed(q.assistantId, q.toolId, c), c);
    assert OwnedAssistants(s1, cfg) <= OwnedAssistants(s, cfg);
    assert OwnedCredentials(s1, cfg) <= OwnedCredentials(s, cfg);
    assert BoundTools(s1, cfg, OwnedCredentials(s1, cfg)) <= Tools(s, cfg);
  }

  /** A finished create can be deleted. */
  lemma CompleteIsDeletable(s: Store, cfg: Config, p: Provisioned)
    requires Complete(s, cfg, p)
    ensures Deletable(s, cfg, p)
  {
    assert AttachedId(FinalAssistant(cfg, p.credentialId, p.toolId)) == Ok(Some(p.credentialId));
    assert OwnedAssistants(s, cfg) <= Assistants(s, cfg);
    assert OwnedCredentials(s, cfg) <= Credentials(s, cfg);
  }

  /** An interrupted delete leaves a deletable account, so it can be interrupted any number of times. */
  lemma DeletableAfterCrash(s: Store, cfg: Config, p: Provisioned, h: Store)
    requires Deletable(s, cfg, p) && Trimmed(cfg, s, h)
    ensures Deletable(h, cfg, p)
  {
    assert OwnedAssistants(h, cfg) <= OwnedAssistants(s, cfg);
    assert OwnedCredentials(h, cfg) <= OwnedCredentials(s, cfg);
    assert Tools(h, cfg) <= Tools(s, cfg);
  }

  /** What survives a delete, from any account: no owned assistant and no owned credential; and a prepare
      tool survives exactly when it is not the named one and is bound to no owned credential other than the
      one deleted by name. The sweep runs after that credential is gone, so it does not see tools bound to it. */
  lemma DeleteSurvivors(s: Store, cfg: Config, p: Parsed, c: Option<string>)
    ensures OwnedAssistants(Deleted(s, cfg, p, c), cfg) == {}
    ensures OwnedCredentials(Deleted(s, cfg, p, c), cfg) == {}
    ensures forall k :: k in Tools(Deleted(s, cfg, p, c), cfg) <==>
              && k in Tools(s, cfg) && k != Key(ToolKind, p.toolId) && k !in Named(s, p, c)
              && !(s[k].credentialId.Some?
                   && Key(CredentialKind, s[k].credentialId.value) in OwnedCredentials(s, cfg)
                   && s[k].credentialId != c
                   && Key(CredentialKind, s[k].credentialId.value) !in Named(s, p, c))
  {
    var s1 := s - Named(s, p, c);
    var f := Deleted(s, cfg, p, c);
    assert forall k :: k in OwnedCredentials(s1, cfg) <==> k in OwnedCredentials(s, cfg) && k !in Named(s, p, c);
    assert forall k :: k in f <==> k in s1 && k !in SweepTargets(s1, cfg);
  }

  /** So no prepare tool outlives the stack if and only if every prepare tool, the named one apart, was bound
      to an owned credential other than the named one. */
  lemma NoToolSurvivesIff(s: Store, cfg: Config, p: Parsed, c: Option<string>)
    requires WellKinded(s)
    ensures Tools(Deleted(s, cfg, p, c), cfg) == {}
       <==> forall k :: k in Tools(s, cfg) && k.id != p.toolId ==>
              && s[k].credentialId.Some? && s[k].credentialId != c
              && Key(CredentialKind, s[k].credentialId.value) in OwnedCredentials(s, cfg)
  {
    DeleteSurvivors(s, cfg, p, c);
    forall k | k in Tools(s, cfg) ensures k.kind == ToolKind {}
    if Tools(Deleted(s, cfg, p, c), cfg) == {} {
      forall k | k in Tools(s, cfg) && k.id != p.toolId
        ensures s[k].credentialId.Some? && s[k].credentialId != c
                && Key(CredentialKind, s[k].credentialId.value) in OwnedCredentials(s, cfg)
      {
        assert k !in Tools(Deleted(s, cfg, p, c), cfg);
      }
    }
  }

  // Deleting without a physical identifier

  /** Everything under the owner's keys is recognizably the owner's: each tool by the credential it is bound to. */
  ghost predicate Claimed(s: Store, cfg: Config) {
    && Assistants(s, cfg) <= OwnedAssistants(s, cfg)
    && Credentials(s, cfg) <= OwnedCredentials(s, cfg)
    && Tools(s, cfg) <= BoundTools(s, cfg, OwnedCredentials(s, cfg))
  }

  ghost predicate ScopeIsEmpty(s: Store, cfg: Config) {
    Assistants(s, cfg) == {} && Credentials(s, cfg) == {} && Tools(s, cfg) == {}
  }

  /** The sweep (the pending identifier) empties the owner's scope if and only if everything in it is claimed. */
  lemma SweepEmptiesIff(s: Store, cfg: Config)
    ensures ScopeIsEmpty(Swept(s, cfg), cfg) <==> Claimed(s, cfg)
  {
    var f := Swept(s, cfg);
    assert forall k :: k in f <==> k in s && k !in SweepTargets(s, cfg);
    if ScopeIsEmpty(f, cfg) {
      forall k | k in Assistants(s, cfg) ensures k in OwnedAssistants(s, cfg) {
        assert k !in Assistants(f, cfg);
      }
      forall k | k in Credentials(s, cfg) ensures k in OwnedCredentials(s, cfg) {
        assert k !in Credentials(f, cfg);
      }
      forall k | k in Tools(s, cfg) ensures k in BoundTools(s, cfg, OwnedCredentials(s, cfg)) {
        assert k !in Tools(f, cfg);
      }
    }
  }

  /** An account whose sweep returns, undisturbed, and empties the owner's scope. */
  ghost predicate Sweepable(s: Store, cfg: Config) {
    Claimed(s, cfg) && ValidIds(SweepTargets(s, cfg))
  }

  /** Every state a crashed create can leave is one. */
  lemma RecoverableIsSweepable(s: Store, cfg: Config)
    requires Recoverable(s, cfg)
    ensures Sweepable(s, cfg)
  {
    RecoverableMembers(s, cfg);
    RecoverableIds(s, cfg);
    forall k | k in Tools(s, cfg) ensures k in BoundTools(s, cfg, OwnedCredentials(s, cfg)) {
      assert GoodTool(k, s[k], Credentials(s, cfg));
      assert Key(CredentialKind, s[k].credentialId.value) in OwnedCredentials(s, cfg);
    }
    forall k | k in Assistants(s, cfg) ensures k in OwnedAssistants(s, cfg) {
      assert GoodAssistant(k, s[k], cfg, Credentials(s, cfg));
    }
  }

  /** And an interrupted sweep leaves another, because no credential goes while a tool bound to one is left. */
  lemma SweepableAfterCrash(s: Store, cfg: Config, h: Store)
    requires Sweepable(s, cfg) && SweptInOrder(cfg, s, h)
    ensures Sweepable(h, cfg)
  {
    forall k | k in Tools(h, cfg) ensures k in BoundTools(h, cfg, OwnedCredentials(h, cfg)) {
      assert k in Tools(s, cfg) && k in BoundTools(s, cfg, OwnedCredentials(s, cfg));
      var c := Key(CredentialKind, s[k].credentialId.value);
      assert c in OwnedCredentials(s, cfg);
      assert c in h;
    }
    assert forall k :: k in Assistants(h, cfg) ==> k in Assistants(s, cfg);
    assert forall k :: k in Credentials(h, cfg) ==> k in Credentials(s, cfg);
    assert forall k :: k in SweepTargets(h, cfg) ==> k in SweepTargets(s, cfg);
  }

  /** So a delete of a create that never reported its identifier converges: after any number of interrupted
      sweeps, each of which left any of its states, one undisturbed run returns and leaves nothing behind. */
  lemma {:induction false} InterruptedSweepsConverge(states: seq<Store>, cfg: Config)
    requires states != [] && Recoverable(states[0], cfg)
    requires forall i :: 0 <= i < |states| - 1 ==> SweptInOrder(cfg, states[i], states[i + 1])
    ensures
      var s := states[|states| - 1];
      Sweepable(s, cfg) && Unhindered(s, cfg, PENDING) && ScopeIsEmpty(Swept(s, cfg), cfg)
    decreases |states|
  {
    hide Recoverable, SweptInOrder, Sweepable;
    if |states| == 1 {
      RecoverableIsSweepable(states[0], cfg);
      SweepableConverges(states[0], cfg);
    } else {
      InterruptedSweepsConverge(states[..|states| - 1], cfg);
      SweepableAfterCrash(states[|states| - 2], cfg, states[|states| - 1]);
      SweepableConverges(states[|states| - 1], cfg);
    }
  }

  lemma SweepableConverges(s: Store, cfg: Config)
    requires Sweepable(s, cfg)
    ensures Unhindered(s, cfg, PENDING) && ScopeIsEmpty(Swept(s, cfg), cfg)
  {
    SweepEmptiesIff(s, cfg);
  }

  /** Out of this order a crash would strand an object: with the credential gone first, its tool stays for good. */
  lemma OrderMatters(cfg: Config, s: Store, p: Provisioned)
    requires Complete(s, cfg, p)
    ensures
      var h := s - {Key(CredentialKind, p.credentialId)};
      Trimmed(cfg, s, h) && !SweptInOrder(cfg, s, h) && Key(ToolKind, p.toolId) in Swept(h, cfg)
  {
    var a, t, c := Key(AssistantKind, p.assistantId), Key(ToolKind, p.toolId), Key(CredentialKind, p.credentialId);
    var h := s - {c};
    assert t in Tools(s, cfg) && c in Credentials(s, cfg) && c in OwnedCredentials(s, cfg);
    assert t in BoundTools(s, cfg, OwnedCredentials(s, cfg)) && t in h;
    assert c !in OwnedCredentials(h, cfg);
    assert t !in SweepTargets(h, cfg);
  }

  lemma {:induction false} TrimmedChain(states: seq<Store>, cfg: Config)
    requires states != [] && forall i :: 0 <= i < |states| - 1 ==> Trimmed(cfg, states[i], states[i + 1])
    ensures Trimmed(cfg, states[0], states[|states| - 1])
    decreases |states|
  {
    if |states| > 1 {
      TrimmedChain(states[..|states| - 1], cfg);
      assert Trimmed(cfg, states[|states| - 2], states[|states| - 1]);
    }
  }

  /** Likewise for a create that did report its identifier: after any number of interrupted deletes, one
      undisturbed run returns and leaves nothing behind. */
  lemma InterruptedDeletesConverge(states: seq<Store>, cfg: Config, p: Provisioned)
    requires states != [] && Complete(states[0], cfg, p)
    requires forall i :: 0 <= i < |states| - 1 ==> Trimmed(cfg, states[i], states[i + 1])
    ensures
      var s := states[|states| - 1];
      && Unhindered(s, cfg, Render(p)) && Parse(Render(p)).Ok?
      && CredentialIn(s, Parse(Render(p)).value).Ok?
      && ScopeIsEmpty(Deleted(s, cfg, Parse(Render(p)).value, CredentialIn(s, Parse(Render(p)).value).value), cfg)
  {
    var s := states[|states| - 1];
    TrimmedChain(states, cfg);
    CompleteIsDeletable(states[0], cfg, p);
    DeletableAfterCrash(states[0], cfg, p, s);
    DeletableIsStartable(s, cfg, Render(p), p);
    PendingIsNoRendering();
    var q := Parsed(p.assistantId, p.toolId, Some(p.credentialId));
    assert CredentialIn(s, q) == Ok(Some(p.credentialId));
    NothingIsLeft(states[0], s, cfg, p);
  }

  lemma NothingIsLeft(start: Store, s: Store, cfg: Config, p: Provisioned)
    requires Complete(start, cfg, p) && Trimmed(cfg, start, s)
    ensures ScopeIsEmpty(Deleted(s, cfg, Parsed(p.assistantId, p.toolId, Some(p.credentialId)), Some(p.credentialId)),
                         cfg)
  {
    var q := Parsed(p.assistantId, p.toolId, Some(p.credentialId));
    var f := Deleted(s, cfg, q, Some(p.credentialId));
    assert forall k :: k in f ==> k in s && k !in Named(s, q, Some(p.credentialId));
    assert forall k :: k in Assistants(f, cfg) ==> k in Assistants(start, cfg);
    assert forall k :: k in Credentials(f, cfg) ==> k in Credentials(start, cfg);
    assert forall k :: k in Tools(f, cfg) ==> k in Tools(start, cfg);
  }

  /** The run the comment in the source rules out: a duplicate prepare tool, bound to the same credential,
      outlives a delete that returns normally, because its credential is gone when the sweep looks. */
  lemma DuplicateToolOutlivesStack(cfg: Config, p: Provisioned, duplicate: string)
    requires ValidId(p.assistantId) && ValidId(p.toolId) && ValidId(p.credentialId) && ValidId(duplicate)
    requires duplicate != p.toolId && TokenUsable(cfg)
    ensures
      var s := map[Key(AssistantKind, p.assistantId) := FinalAssistant(cfg, p.credentialId, p.toolId),
                   Key(CredentialKind, p.credentialId) := CredentialPayload(cfg).value,
                   Key(ToolKind, p.toolId) := PrepareTool(cfg, p.credentialId),
                   Key(ToolKind, duplicate) := PrepareTool(cfg, p.credentialId)];
      var q := Parsed(p.assistantId, p.toolId, Some(p.credentialId));
      && Parse(Render(p)) == Ok(q) && Startable(s, cfg, q) && CredentialIn(s, q) == Ok(Some(p.credentialId))
      && Tools(Deleted(s, cfg, q, Some(p.credentialId)), cfg) == {Key(ToolKind, duplicate)}
  {
    var s := map[Key(AssistantKind, p.assistantId) := FinalAssistant(cfg, p.credentialId, p.toolId),
                 Key(CredentialKind, p.credentialId) := CredentialPayload(cfg).value,
                 Key(ToolKind, p.toolId) := PrepareTool(cfg, p.credentialId),
                 Key(ToolKind, duplicate) := PrepareTool(cfg, p.credentialId)];
    var q := Parsed(p.assistantId, p.toolId, Some(p.credentialId));
    ParseIsInverse(Render(p), p);
    DuplicateIsStartable(cfg, s, p, duplicate);
    DeleteSurvivors(s, cfg, q, Some(p.credentialId));
    assert Tools(s, cfg) == {Key(ToolKind, p.toolId), Key(ToolKind, duplicate)};
    forall k ensures k in Tools(Deleted(s, cfg, q, Some(p.credentialId)), cfg) <==> k == Key(ToolKind, duplicate) {}
  }

  lemma DuplicateIsStartable(cfg: Config, s: Store, p: Provisioned, duplicate: string)
    requires ValidId(p.assistantId) && ValidId(p.toolId) && ValidId(p.credentialId) && ValidId(duplicate)
    requires duplicate != p.toolId && TokenUsable(cfg)
    requires s == map[Key(AssistantKind, p.assistantId) := FinalAssistant(cfg, p.credentialId, p.toolId),
                      Key(CredentialKind, p.credentialId) := CredentialPayload(cfg).value,
                      Key(ToolKind, p.toolId) := PrepareTool(cfg, p.credentialId),
                      Key(ToolKind, duplicate) := PrepareTool(cfg, p.credentialId)]
    ensures var q := Parsed(p.assistantId, p.toolId, Some(p.credentialId));
            Startable(s, cfg, q) && CredentialIn(s, q) == Ok(Some(p.credentialId))
  {
    assert AttachedId(FinalAssistant(cfg, p.credentialId, p.toolId)) == Ok(Some(p.credentialId));
    var q := Parsed(p.assistantId, p.toolId, Some(p.credentialId));
    assert ChecksPass(s, cfg, q);
    forall k | k in SweepTargets(s - Named(s, q, Some(p.credentialId)), cfg) ensures ValidId(k.id) {
      assert k in s;
    }
  }
}
