/** The direct-handoff tool and assistant of a qualification run and the identity binding that points at the
    assistant (qualification/controller.py: `install_direct_assistant`, `cleanup_direct_assistant`).

    Installation goes tool, assistant, binding; cleanup goes binding, assistant, tool. The environment may
    stop the process anywhere, fail any call before or after it took effect, and commit a POST whose answer
    was lost at any later time. */
module DirectOwnership {
  import opened Wrappers

  datatype Binding = Unbound | Bound(assistantId: string)

  datatype Journal = ToolIntent | ToolRequest | ToolOwnership | AssistantIntent | AssistantRequest | AssistantOwnership

  /** The remote side: the tools and assistants of this execution (an assistant maps to the tool it calls),
      POSTs that may still commit, the binding secret, and the journals. */
  datatype World = World(
    tools: set<string>,
    toolPending: bool,
    assistants: map<string, string>,
    assistantPending: Option<string>,
    binding: Binding,
    journals: set<Journal>)

  predicate NoTool(w: World) {
    w.tools == {} && !w.toolPending
  }

  predicate NoAssistant(w: World) {
    w.assistants == map[] && w.assistantPending.None?
  }

  /** The binding never names an assistant that is gone, an assistant never calls a tool that is gone, and
      nothing is live, or may still come alive, without its intent and request on record. */
  ghost predicate Safe(w: World) {
    && (w.binding.Bound? ==> w.binding.assistantId in w.assistants)
    && (forall a :: a in w.assistants ==> w.assistants[a] in w.tools)
    && (w.assistantPending.Some? ==> w.assistantPending.value in w.tools)
    && (!NoTool(w) ==> ToolIntent in w.journals && ToolRequest in w.journals)
    && (!NoAssistant(w) ==> AssistantIntent in w.journals && AssistantRequest in w.journals)
  }

  ghost predicate AllSafe(h: seq<World>) {
    forall k :: 0 <= k < |h| ==> Safe(h[k])
  }

  /** At most one tool, live or still possible, and the in-memory state accounts for it. */
  predicate ToolTracked(tools: set<string>, pending: bool, id: Option<string>, ambiguous: bool) {
    && (id.None? && !ambiguous ==> tools == {} && !pending)
    && (id.Some? ==> !pending && tools <= {id.value})
    && (forall a, b :: a in tools && b in tools ==> a == b)
    && (tools == {} || !pending)
  }

  predicate AssistantTracked(assistants: map<string, string>, pending: Option<string>, id: Option<string>,
                             ambiguous: bool) {
    && (id.None? && !ambiguous ==> assistants == map[] && pending.None?)
    && (id.Some? ==> pending.None? && assistants.Keys <= {id.value})
    && (forall a, b :: a in assistants && b in assistants ==> a == b)
    && (assistants == map[] || pending.None?)
  }

  class Controller {
    var world: World
    /** Every state the remote side has been in since this process began. */
    ghost var history: seq<World>
    /** How many times the environment has misbehaved. */
    ghost var faults: nat

    var toolKnown: bool           // direct_tool_desired
    var toolId: Option<string>
    var toolRequest: bool         // direct_tool_request_journal_object
    var toolAmbiguous: bool
    var assistantKnown: bool      // direct_assistant_desired and direct_tool_prompt_sha256
    var assistantId: Option<string>
    var assistantRequest: bool    // direct_assistant_request_journal_object
    var assistantAmbiguous: bool
    var bindingInstalled: bool
    var cleanupRequired: bool
    var productSealed: bool       // product_assistant_sha256

    /** What the in-memory state says about the remote side. */
    ghost predicate Valid()
      reads this
    {
      && |history| > 0 && history[|history| - 1] == world && AllSafe(history) && Safe(world)
      && (!bindingInstalled ==> world.binding.Unbound?)
      && AssistantTracked(world.assistants, world.assistantPending, assistantId, assistantAmbiguous)
      && ToolTracked(world.tools, world.toolPending, toolId, toolAmbiguous)
      && (assistantRequest ==> !toolAmbiguous && assistantKnown && toolKnown)
      && (!NoAssistant(world) ==> assistantRequest)
      && (toolRequest ==> toolKnown)
      && (assistantId.Some? || assistantAmbiguous || bindingInstalled ==> assistantRequest && cleanupRequired)
      && (toolId.Some? || toolAmbiguous ==> toolKnown && toolRequest && cleanupRequired)
      && (bindingInstalled ==> assistantId.Some?)
      && (assistantRequest ==> cleanupRequired)
    }

    constructor ()
      ensures Valid() && Clear() && !productSealed && !toolRequest && !assistantRequest
      ensures history == [world] && NoTool(world) && NoAssistant(world) && faults == 0
    {
      world := World({}, false, map[], None, Unbound, {});
      history := [World({}, false, map[], None, Unbound, {})];
      faults := 0;
      toolKnown, toolId, toolRequest, toolAmbiguous := false, None, false, false;
      assistantKnown, assistantId, assistantRequest, assistantAmbiguous := false, None, false, false;
      bindingInstalled, cleanupRequired, productSealed := false, false, false;
    }

    /** The state after the tool's journals were written ahead and its POST was refused: nothing exists, but the
        creation stays ambiguous, so no cleanup ever succeeds. */
    constructor RefusedPost()
      ensures Valid() && Stuck() && !Settles() && NoTool(world) && NoAssistant(world)
      ensures world.journals == {ToolIntent, ToolRequest} && toolRequest && toolAmbiguous && cleanupRequired
    {
      world := World({}, false, map[], None, Unbound, {ToolIntent, ToolRequest});
      history := [World({}, false, map[], None, Unbound, {ToolIntent, ToolRequest})];
      faults := 1;
      toolKnown, toolId, toolRequest, toolAmbiguous := true, None, true, true;
      assistantKnown, assistantId, assistantRequest, assistantAmbiguous := false, None, false, false;
      bindingInstalled, cleanupRequired, productSealed := false, true, true;
    }

    /** `direct_vapi_recovery_required` in `cleanup` is the negation of this. */
    predicate Clear()
      reads this
    {
      && !cleanupRequired && !bindingInstalled && assistantId.None? && !assistantAmbiguous
      && toolId.None? && !toolAmbiguous
    }

    method Become(w: World)
      requires AllSafe(history) && Safe(w)
      modifies this`world, this`history
      ensures world == w && history == old(history) + [w] && AllSafe(history)
    {
      world := w;
      history := history + [w];
    }

    /** One call that the environment may refuse or break. */
    method Call() returns (ok: bool)
      modifies this`faults
      ensures faults == if ok then old(faults) else old(faults) + 1
    {
      ok := *;
      if !ok {
        faults := faults + 1;
      }
    }

    /** The environment may commit a lost POST now. */
    method Drift()
      requires Valid()
      modifies this`world, this`history
      ensures Valid() && old(history) <= history
      ensures !old(world).toolPending && old(world).assistantPending.None? ==> world == old(world)
      ensures world.binding == old(world).binding && world.journals == old(world).journals
      ensures NoTool(world) <==> NoTool(old(world))
      ensures NoAssistant(world) <==> NoAssistant(old(world))
      ensures old(world).tools <= world.tools
    {
      hide AllSafe;
      var commits: bool, id: string := *, *;
      if commits && world.toolPending {
        Become(world.(tools := {id}, toolPending := false));
      } else if commits && world.assistantPending.Some? {
        Become(world.(assistants := map[id := world.assistantPending.value], assistantPending := None));
        assert id in world.assistants;
      }
    }

    /** One journal write; it may take effect and still fail. */
    method Put(j: Journal) returns (ok: bool)
      requires Valid()
      modifies this`world, this`history, this`faults
      ensures Valid() && old(history) <= history
      ensures ok ==> j in world.journals
      ensures old(world).journals <= world.journals
      ensures world == old(world).(journals := world.journals)
      ensures old(faults) <= faults && (faults == old(faults) ==> ok)
    {
      hide AllSafe;
      var effect: bool := *;
      ok := Call();
      if ok || effect {
        Become(world.(journals := world.journals + {j}));
      }
    }

    /** `find_direct_tool`; a match that is ambiguous or differs from what is wanted is refused, which is one of
        the ways this call fails. */
    method FindTool() returns (r: Result<Option<string>, ()>)
      requires Valid()
      modifies this`world, this`history, this`faults
      ensures Valid() && old(history) <= history
      ensures !old(world).toolPending && old(world).assistantPending.None? ==> world == old(world)
      ensures world.binding == old(world).binding && world.journals == old(world).journals
      ensures NoTool(world) <==> NoTool(old(world))
      ensures NoAssistant(world) <==> NoAssistant(old(world))
      ensures r.Ok? ==> match r.value case None => world.tools == {} case Some(id) => world.tools == {id}
      ensures old(faults) <= faults && (faults == old(faults) ==> r.Ok?)
    {
      hide AllSafe;
      Drift();
      var ok := Call();
      if !ok {
        return Err(());
      }
      if world.tools == {} {
        return Ok(None);
      }
      var id :| id in world.tools;
      return Ok(Some(id));
    }

    /** `find_direct_assistant`, refused in the same cases. */
    method FindAssistant() returns (r: Result<Option<string>, ()>)
      requires Valid()
      modifies this`world, this`history, this`faults
      ensures Valid() && old(history) <= history
      ensures !old(world).toolPending && old(world).assistantPending.None? ==> world == old(world)
      ensures world.binding == old(world).binding && world.journals == old(world).journals
      ensures NoTool(world) <==> NoTool(old(world))
      ensures NoAssistant(world) <==> NoAssistant(old(world))
      ensures r.Ok? ==>
                match r.value
                case None => world.assistants == map[]
                case Some(id) => world.assistants.Keys == {id}
      ensures old(faults) <= faults && (faults == old(faults) ==> r.Ok?)
    {
      hide AllSafe;
      Drift();
      var ok := Call();
      if !ok {
        return Err(());
      }
      if world.assistants == map[] {
        return Ok(None);
      }
      var id :| id in world.assistants;
      return Ok(Some(id));
    }

    /** `create_direct_tool`: at most one POST, reconciled by polling when its answer is lost. */
    method CreateTool() returns (r: Result<string, ()>)
      requires Valid() && !world.toolPending && NoAssistant(world) && toolAmbiguous && toolId.None?
      requires ToolIntent in world.journals && ToolRequest in world.journals
      modifies this`world, this`history, this`faults
      ensures Valid() && old(history) <= history && NoAssistant(world)
      ensures r.Ok? ==> world.tools == {r.value} && !world.toolPending
      ensures old(faults) <= faults && (faults == old(faults) ==> r.Ok?)
    {
      hide AllSafe;
      var existing :- FindTool();
      if existing.Some? {
        return Ok(existing.value);
      }
      var effect: bool, answered: bool, lost: bool, id: string := *, *, *, *;
      if effect {
        Become(world.(tools := {id}));
      } else if lost {
        Become(world.(toolPending := true));
      }
      if effect && answered {
        var exact := Call();
        var owned :- FindTool();
        if !exact || owned != Some(id) {
          return Err(());
        }
        return Ok(id);
      }
      faults := faults + 1;
      if answered {
        return Err(());
      }
      var now := 0;
      while true
        invariant Valid() && old(history) <= history && NoAssistant(world) && old(faults) < faults
        decreases 10 - now
      {
        var found :- FindTool();
        if found.Some? {
          return Ok(found.value);
        }
        if now >= 10 {
          return Err(());
        }
        var slept: int := *;
        now := now + if slept > 0 then slept else 1;
      }
    }

    /** `create_direct_assistant` */
    method CreateAssistant(tool: string) returns (r: Result<string, ()>)
      requires Valid() && world.assistantPending.None? && assistantAmbiguous && assistantId.None? && assistantRequest
      requires world.tools == {tool} && !world.toolPending
      requires AssistantIntent in world.journals && AssistantRequest in world.journals
      requires ToolIntent in world.journals && ToolRequest in world.journals
      modifies this`world, this`history, this`faults
      ensures Valid() && old(history) <= history
      ensures r.Ok? ==> world.assistants.Keys == {r.value}
      ensures old(faults) <= faults && (faults == old(faults) ==> r.Ok?)
    {
      hide AllSafe;
      var existing :- FindAssistant();
      if existing.Some? {
        return Ok(existing.value);
      }
      var effect: bool, answered: bool, lost: bool, id: string := *, *, *, *;
      if effect {
        Become(world.(assistants := map[id := tool]));
      } else if lost {
        Become(world.(assistantPending := Some(tool)));
      }
      if effect && answered {
        var exact := Call();
        var owned :- FindAssistant();
        assert id in world.assistants.Keys;
        if !exact || owned != Some(id) {
          return Err(());
        }
        return Ok(id);
      }
      faults := faults + 1;
      if answered {
        return Err(());
      }
      var now := 0;
      while true
        invariant Valid() && old(history) <= history && old(faults) < faults
        decreases 10 - now
      {
        var found :- FindAssistant();
        if found.Some? {
          return Ok(found.value);
        }
        if now >= 10 {
          return Err(());
        }
        var slept: int := *;
        now := now + if slept > 0 then slept else 1;
      }
    }

    /** `install_direct_assistant`: whatever point it stops at, `Valid` still holds, so everything remote is
        on record and cleanup knows about it. */
    method Install() returns (ok: bool)
      requires Valid() && Clear() && !toolRequest && !assistantRequest
      modifies this
      ensures Valid() && old(history) <= history
      ensures ok ==> assistantId.Some? && toolId.Some? && world.binding == Bound(assistantId.value)
      ensures faults == old(faults) ==> ok
    {
      hide AllSafe, Safe;
      var product := Call();
      if !product {
        return false;
      }
      productSealed := true;
      var productBinding := Call();
      if !productBinding {
        return false;
      }
      var tool := InstallTool();
      if tool.Err? {
        return false;
      }
      var assistant := InstallAssistant(tool.value);
      if assistant.Err? {
        return false;
      }
      ok := Bind(assistant.value);
    }

    /** The identity binding comes last, and is counted as installed before it is written. */
    method Bind(assistant: string) returns (ok: bool)
      requires Valid() && assistantId == Some(assistant) && assistant in world.assistants && assistantRequest
               && cleanupRequired
      modifies this`world, this`history, this`faults, this`bindingInstalled
      ensures Valid() && old(history) <= history
      ensures ok ==> world.binding == Bound(assistant)
      ensures old(faults) <= faults && (faults == old(faults) ==> ok)
    {
      hide AllSafe;
      bindingInstalled := true;
      var effect: bool := *;
      ok := Call();
      if ok || effect {
        Become(world.(binding := Bound(assistant)));
      }
    }

    /** The journals written ahead of the tool's POST. */
    method AnnounceTool() returns (ok: bool)
      requires Valid() && Clear() && !toolRequest && !assistantRequest
      modifies this`world, this`history, this`faults, this`toolKnown, this`toolRequest, this`toolAmbiguous,
               this`cleanupRequired
      ensures Valid() && old(history) <= history && world == old(world).(journals := world.journals)
      ensures NoTool(world) && NoAssistant(world) && toolKnown
      ensures ok ==>
                cleanupRequired && toolRequest && toolAmbiguous && ToolIntent in world.journals
                && ToolRequest in world.journals
      ensures !ok ==> !toolAmbiguous && !toolRequest
      ensures old(faults) <= faults && (faults == old(faults) ==> ok)
    {
      hide AllSafe, Safe;
      toolKnown := true;
      var wroteIntent := Put(ToolIntent);
      if !wroteIntent {
        return false;
      }
      cleanupRequired := true;
      var wroteRequest := Put(ToolRequest);
      if !wroteRequest {
        return false;
      }
      toolRequest := true;
      toolAmbiguous := true;
      return true;
    }

    method InstallTool() returns (r: Result<string, ()>)
      requires Valid() && Clear() && !toolRequest && !assistantRequest
      modifies this`world, this`history, this`faults, this`toolKnown, this`toolRequest, this`toolAmbiguous,
               this`toolId, this`cleanupRequired
      ensures Valid() && old(history) <= history && !assistantRequest && assistantId.None? && !assistantAmbiguous
      ensures r.Ok? ==>
                && toolId == Some(r.value) && !toolAmbiguous && toolKnown && cleanupRequired && world.tools == {r.value}
                && ToolIntent in world.journals && ToolRequest in world.journals
      ensures old(faults) <= faults && (faults == old(faults) ==> r.Ok?)
    {
      hide AllSafe;
      var announced := AnnounceTool();
      if !announced {
        return Err(());
      }
      var id :- CreateTool();
      toolId := Some(id);
      var wroteOwnership := Put(ToolOwnership);
      if !wroteOwnership {
        return Err(());
      }
      toolAmbiguous := false;
      return Ok(id);
    }

    /** The journals written ahead of the assistant's POST. */
    method AnnounceAssistant() returns (ok: bool)
      requires Valid() && !assistantRequest && assistantId.None? && !assistantAmbiguous && !bindingInstalled
      requires toolId.Some? && !toolAmbiguous && toolKnown && cleanupRequired
      modifies this`world, this`history, this`faults, this`assistantKnown, this`assistantRequest,
          this`assistantAmbiguous
      ensures Valid() && old(history) <= history && world == old(world).(journals := world.journals)
      ensures old(world).journals <= world.journals && NoAssistant(world)
      ensures ok ==>
                assistantRequest && assistantAmbiguous && AssistantIntent in world.journals
                && AssistantRequest in world.journals
      ensures old(faults) <= faults && (faults == old(faults) ==> ok)
    {
      hide AllSafe, Safe;
      assistantKnown := true;
      var wroteIntent := Put(AssistantIntent);
      if !wroteIntent {
        return false;
      }
      var wroteRequest := Put(AssistantRequest);
      if !wroteRequest {
        return false;
      }
      assistantRequest := true;
      assistantAmbiguous := true;
      return true;
    }

    method InstallAssistant(tool: string) returns (r: Result<string, ()>)
      requires Valid() && !assistantRequest && assistantId.None? && !assistantAmbiguous && !bindingInstalled
      requires toolId == Some(tool) && !toolAmbiguous && toolKnown && cleanupRequired && world.tools == {tool}
      requires ToolIntent in world.journals && ToolRequest in world.journals
      modifies this`world, this`history, this`faults, this`assistantKnown, this`assistantRequest,
               this`assistantAmbiguous, this`assistantId
      ensures Valid() && old(history) <= history
      ensures r.Ok? ==>
                assistantId == Some(r.value) && !assistantAmbiguous && r.value in world.assistants
                && assistantRequest
      ensures old(faults) <= faults && (faults == old(faults) ==> r.Ok?)
    {
      hide AllSafe, Safe;
      var announced := AnnounceAssistant();
      if !announced {
        return Err(());
      }
      var id :- CreateAssistant(tool);
      var sameOrganization: bool := *;
      if !sameOrganization {
        faults := faults + 1;
        return Err(());
      }
      assistantId := Some(id);
      var wroteOwnership := Put(AssistantOwnership);
      if !wroteOwnership {
        return Err(());
      }
      assistantAmbiguous := false;
      return Ok(id);
    }

    // Cleanup

    /** The unbind step: the secret is only ever set back from this execution's own binding. */
    method Unbind() returns (ok: bool)
      requires Valid() && bindingInstalled
      modifies this`world, this`history, this`faults, this`bindingInstalled
      ensures Valid() && old(history) <= history
      ensures world == old(world) || world == old(world).(binding := Unbound)
      ensures ok <==> !bindingInstalled
      ensures old(faults) <= faults
      ensures faults == old(faults) ==>
                (ok <==> old(world).binding.Unbound? || assistantId == Some(old(world).binding.assistantId))
    {
      hide AllSafe, ToolTracked;
      var read := Call();
      var product := Call();
      if !read || !product {
        return false;
      }
      if world.binding == Unbound {
        bindingInstalled := false;
        return true;
      }
      if Some(world.binding.assistantId) != assistantId {
        return false;
      }
      var effect: bool := *;
      ok := Call();
      if ok || effect {
        Become(world.(binding := Unbound));
      }
      bindingInstalled := !ok;
    }

    /** Deleting an object and proving it stays away. */
    method DeleteAssistant() returns (ok: bool)
      requires Valid() && assistantId.Some? && !bindingInstalled
      modifies this`world, this`history, this`faults, this`assistantId
      ensures Valid() && old(history) <= history
      ensures ok ==> assistantId.None? && NoAssistant(world)
      ensures !ok ==> assistantId == old(assistantId)
      ensures world == old(world) || world == old(world).(assistants := map[])
      ensures old(faults) <= faults && (faults == old(faults) ==> ok)
    {
      hide AllSafe;
      var effect: bool := *;
      ok := Call();
      if ok || effect {
        Become(world.(assistants := map[]));
      }
      if ok {
        assistantId := None;
      }
    }

    method DeleteTool() returns (ok: bool)
      requires Valid() && toolId.Some? && assistantId.None? && !assistantAmbiguous
      modifies this`world, this`history, this`faults, this`toolId
      ensures Valid() && old(history) <= history
      ensures ok ==> toolId.None? && NoTool(world)
      ensures !ok ==> toolId == old(toolId)
      ensures world == old(world) || world == old(world).(tools := {})
      ensures old(faults) <= faults && (faults == old(faults) ==> ok)
    {
      hide AllSafe;
      var effect: bool := *;
      ok := Call();
      if ok || effect {
        Become(world.(tools := {}));
      }
      if ok {
        toolId := None;
      }
    }

    /** The assistant section of `cleanup_direct_assistant`, entered only when the binding is known unbound. */
    method CleanupAssistant(vapi: bool) returns (ok: bool)
      requires Valid() && !bindingInstalled
      modifies this`world, this`history, this`faults, this`assistantId, this`assistantAmbiguous
      ensures Valid() && old(history) <= history
      ensures world.tools == old(world).tools || old(world).toolPending
      ensures world.binding == old(world).binding && (NoTool(old(world)) ==> NoTool(world))
      ensures ok ==> assistantId.None? && NoAssistant(world)
      ensures old(ToolForgotten() || NoAssistantToFind()) ==> !ok
      ensures old(NoAssistantToFind()) ==> NoAssistantToFind()
      ensures old(faults) <= faults
      ensures faults == old(faults) && vapi && old(NothingPending()) ==>
                && NothingPending() && world.tools == old(world).tools
                && (ok <==> old(AssistantSettles()))
                && (ok ==> assistantId.None? && (assistantAmbiguous <==> old(assistantId.Some? && assistantAmbiguous)))
    {
      hide AllSafe;
      if !vapi || toolId.None? || !assistantKnown {
        return assistantId.None? && !assistantAmbiguous && !assistantRequest;
      }
      if assistantId.None? && assistantAmbiguous {
        var found := FindAssistant();
        if found.Err? || found.value.None? {
          return false;
        }
        assistantId := found.value;
        assistantAmbiguous := false;
      }
      ok := true;
      if assistantId.Some? {
        ok := DeleteAssistant();
      }
    }

    /** The tool section, entered only when no direct assistant is tracked or ambiguous. `tool` is the
        identifier it worked with. */
    method CleanupTool(vapi: bool, outputs: bool) returns (ok: bool, tool: Option<string>)
      requires Valid() && assistantId.None? && !assistantAmbiguous
      modifies this`world, this`history, this`faults, this`toolId, this`toolAmbiguous
      ensures Valid() && old(history) <= history
      ensures world.binding == old(world).binding && NoAssistant(world)
      ensures ok ==> toolId.None? && NoTool(world)
      ensures old(NoToolToFind()) ==> !ok && NoToolToFind()
      ensures old(toolId).Some? ==> tool == old(toolId)
      ensures old(toolId).None? && assistantRequest ==> tool.None? && toolId.None?
      ensures old(faults) <= faults
      ensures faults == old(faults) && vapi && outputs && old(NothingPending()) ==>
                && NothingPending()
                && (ok <==> old(ToolSettles()))
                && (ok ==> toolId.None? && (toolAmbiguous <==> old(toolId.Some? && toolAmbiguous)))
    {
      hide AllSafe;
      tool := toolId;
      if !vapi || !toolKnown {
        if toolId.Some? || toolAmbiguous {
          return false, tool;
        }
      } else if toolId.None? && toolAmbiguous {
        var found := FindTool();
        if found.Err? || found.value.None? {
          return false, tool;
        }
        toolId := found.value;
        tool := toolId;
        toolAmbiguous := false;
      }
      ok := true;
      if toolId.Some? {
        if !outputs {
          return false, tool;
        }
        ok := DeleteTool();
      }
    }

    /** The product assistant must read back exactly as it was. */
    method CheckProduct(vapi: bool) returns (ok: bool)
      requires Valid()
      modifies this`faults, this`productSealed
      ensures Valid()
      ensures old(faults) <= faults && (faults == old(faults) && vapi ==> ok)
    {
      ok := true;
      if productSealed {
        var same := Call();
        ok := vapi && same;
        productSealed := !ok;
      }
    }

    /** The absence proof that ends a cleanup without errors and clears the in-memory recovery flags.
        `tool` is the tool identifier the cleanup worked with. */
    method ProveAbsence(vapi: bool, outputs: bool, tool: Option<string>) returns (ok: bool)
      requires Valid() && !bindingInstalled && assistantId.None? && !assistantAmbiguous && toolId.None?
               && !toolAmbiguous
      modifies this`faults, this`world, this`history, this`cleanupRequired, this`toolKnown, this`toolRequest,
               this`assistantKnown, this`assistantRequest
      ensures Valid() && old(history) <= history
      ensures ok ==> Clear() && !assistantRequest
      ensures !ok ==> assistantRequest == old(assistantRequest)
      ensures old(assistantRequest) && vapi && tool.None? ==> !ok
      ensures old(assistantRequest) && !vapi && old(cleanupRequired) ==> !ok
      ensures old(faults) <= faults
      ensures faults == old(faults) && vapi ==>
                (ok <==> old((assistantRequest ==> tool.Some? && assistantKnown)
                             && (toolRequest ==> outputs && toolKnown)))
    {
      hide AllSafe, Safe;
      if !vapi {
        if cleanupRequired {
          return false;
        }
      } else {
        if assistantRequest {
          if tool.None? || !assistantKnown {
            return false;
          }
          var assistant := FindAssistant();
          if assistant != Ok(None) {
            return false;
          }
        }
        if toolRequest {
          if !outputs || !toolKnown {
            return false;
          }
          var remaining := FindTool();
          if remaining != Ok(None) {
            return false;
          }
        }
      }
      cleanupRequired, toolKnown, toolRequest, assistantKnown, assistantRequest := false, false, false, false, false;
      return true;
    }

    predicate NothingPending()
      reads this
    {
      !world.toolPending && world.assistantPending.None?
    }

    predicate AssistantSettles()
      reads this
    {
      if toolId.None? || !assistantKnown then assistantId.None? && !assistantAmbiguous && !assistantRequest
      else assistantId.None? && assistantAmbiguous ==> world.assistants != map[]
    }

    predicate ToolSettles()
      reads this
    {
      if !toolKnown then toolId.None? && !toolAmbiguous
      else toolId.None? && toolAmbiguous ==> world.tools != {}
    }

    /** The states from which one undisturbed cleanup finishes the job. It does not when the last thing before
        was a create whose ownership journal failed (identifier known, creation still ambiguous), nor when an
        earlier cleanup got as far as clearing the tool identifier but not the request flags, nor when there is
        nothing to find of a creation that is still ambiguous. */
    predicate Settles()
      reads this
    {
      && AssistantSettles() && ToolSettles()
      && !(assistantId.Some? && assistantAmbiguous) && !(toolId.Some? && toolAmbiguous)
    }

    /** The request flag of the assistant is set and the tool identifier is gone. */
    predicate ToolForgotten()
      reads this
    {
      assistantRequest && toolId.None?
    }

    /** The creation of the assistant is ambiguous, and no assistant exists or can still appear. */
    predicate NoAssistantToFind()
      reads this
    {
      assistantAmbiguous && assistantId.None? && NoAssistant(world)
    }

    predicate NoToolToFind()
      reads this
    {
      toolAmbiguous && toolId.None? && NoTool(world)
    }

    /** Stuck for good: no cleanup ever leaves such a state. */
    predicate Stuck()
      reads this
    {
      ToolForgotten() || NoAssistantToFind() || NoToolToFind()
    }

    /** A stuck state is never one in which nothing is left to recover. */
    lemma StuckIsNotClear()
      requires Valid() && Stuck()
      ensures !Clear()
    {
    }

    lemma ValidFlags()
      requires Valid()
      ensures (assistantRequest ==> !toolAmbiguous && assistantKnown && toolKnown) && (toolRequest ==> toolKnown)
      ensures (assistantId.Some? || assistantAmbiguous ==> assistantRequest)
              && (toolId.Some? || toolAmbiguous ==> toolKnown)
      ensures bindingInstalled ==> world.binding.Unbound? || assistantId == Some(world.binding.assistantId)
    {
    }

    /** `cleanup_direct_assistant`. Every state on the way is `Safe` (part of `Valid`), so an assistant is only
        deleted once nothing is bound to it and a tool only once nothing calls it. `ok` says that no error was
        reported. An undisturbed run clears everything exactly when `Settles`, and otherwise leaves a stuck state,
        which stays stuck whatever the environment does: a second cleanup never succeeds where an undisturbed
        first one did not. */
    method Cleanup(vapi: bool, outputs: bool, phoneAbsent: bool) returns (ok: bool)
      requires Valid()
      modifies this
      ensures Valid() && old(history) <= history
      ensures old(faults) <= faults
      ensures !phoneAbsent ==> !ok && world == old(world)
      ensures faults == old(faults) && vapi && outputs && phoneAbsent && old(NothingPending()) ==>
                (ok && Clear() <==> old(Settles())) && (!old(Settles()) ==> Stuck())
      ensures old(Stuck()) ==> !ok && Stuck()
    {
      hide AllSafe, Safe, Valid;
      ValidFlags();
      if !phoneAbsent {
        return false;
      }
      var unbound := true;
      if bindingInstalled {
        unbound := Unbind();
      }
      var assistantOk := true;
      if !bindingInstalled {
        assistantOk := CleanupAssistant(vapi);
      }
      var toolOk, tool := true, toolId;
      if assistantId.None? && !assistantAmbiguous {
        toolOk, tool := CleanupTool(vapi, outputs);
      }
      var productOk := CheckProduct(vapi);
      ok := unbound && assistantOk && toolOk && productOk;
      if ok && !bindingInstalled && assistantId.None? && !assistantAmbiguous && toolId.None? && !toolAmbiguous {
        ok := ProveAbsence(vapi, outputs, tool);
      }
    }

    /** The final versioned-prefix purge: some or all journals go. */
    method Purge() returns (ok: bool)
      requires Valid() && Clear()
      modifies this`world, this`history, this`faults
      ensures Valid() && old(history) <= history && NoTool(world) && NoAssistant(world)
      ensures ok ==> world.journals == {}
      ensures old(faults) <= faults && (faults == old(faults) ==> ok)
    {
      hide AllSafe;
      var left: set<Journal> := *;
      ok := Call();
      Become(world.(journals := if ok then {} else world.journals * left));
    }
  }
}
