# Verification of the Vapi to Amazon Connect recipe

A Dafny model of the parts of this repository that must stay correct when a remote store misbehaves, and proofs about
them. `dafny verify dfyconfig.toml` checks everything.

The remote side of each protocol is an explicit state with an adversarial environment. A write may commit and answer,
commit with its answer lost, not commit, or be refused; a process may stop between any two calls. A ghost `history`
holds every state the remote side passes through, so a property of the history is a property of every crash point. A
ghost counter `faults` counts how often the environment misbehaved, so that "an undisturbed run succeeds" can be stated
beside "whatever happens, nothing bad does".

- `VapiRemote`, `VapiProvisioning`, `VapiDelete`, `PhysicalId`: the CloudFormation provisioner of one assistant, one
  credential and one prepare tool, as a crash-recovery protocol.
- `PhoneOwnership`, `DirectOwnership`, `CleanupOrder`: the qualification controller's write-ahead ownership of its
  temporary endpoint and of its direct assistant and tool, and the order of its cleanup.
- `HandoffRow`, `HandoffSystem`, `HandoffCalls`, `HandoffDirect`, `Handoff`, `DynamoValue`, `Decimal`, `SecretCache`: the
  handoff row stepped by concurrent Lambda invocations, from the assistant's tool call to the agent's screen.
- `ScreenPop`, `Json`: the field configuration, its canonical text and its values.
- `Routing`: the routing compiler, the contact flow it renders into, and an interpreter for that flow.
- `DeploymentReview`: the breadth-first review of a nested change set.
- `ObjectVersions`: paged listing and purge of object versions.
- `StableWindows`: the loops that wait for a stable window, and the release verifier's view of one of them.
- `Base64Url`, `HandoffToken`, `ContentManifest`, `Text`, `Collections`, `Wrappers`: codecs and helpers.

SHA-256 and HMAC are arbitrary functions; a lemma that needs one injective says so in its `requires`.

Where the code and its comments or sibling code disagree, the model follows the code, and a lemma states the difference:

- `VapiDelete.DuplicateToolOutlivesStack`: the comment at lines 995-998 of lambda/common/vapi_provisioning.py rules out
  a surviving duplicate tool; one bound to the deleted credential survives.
- `VapiRemote.UpdateIsDurableIff`: a credential update whose only change is the token can report success unwritten.
- `DirectOwnership.Controller.Cleanup`: a cleanup that cleared the tool identifier but not the request flag, or that finds
  nothing of a creation still marked ambiguous, can never succeed later.
- `PhoneOwnership.Controller.CleanupSip`: a cleanup that removed the endpoint but not its request journal, or whose POST was
  refused, can never succeed later.
- `HandoffRow.StatusFallsIff`: the status of a row is not monotone; it falls only by a repeated direct handoff, on a reserved
  row (`HandoffDirect.ReservedGoesBackToPrepared`), and never on a telephone call's (`Handoff.PreparedNeverFalls`).
- `Handoff.ReplayedToScreenIff`: a replayed preparation is not compared with the stored configuration, and reaches the
  screen under another one only with the four default keys; `Handoff.RelabelledReplay` is a changed label.
- `ScreenPop.ReparseIff`: the canonical text of a choice field is refused when parsed.
- `Routing.FailedLookupIff`: a route for the value "unavailable" also receives failed lookups.
- `StableWindows.UnbrokenIff`: the activation wait promises a continuous active interval; it has seen one if and only if no
  read since its start was missing, and can return without (`StableWindows.MissingDoesNotReset`).
- `StableWindows.VerifiedIffStrict`: the proof producer orders timestamps loosely, the verifier strictly; it shows only
  when the wall clock is set back between observations.
- `HandoffToken.VerifiersAgreeIff`: one verifier measures the key in characters, the other in bytes.

## Model

| member | source | states |
|---|---|---|
| `VapiRemote.VapiClient.Read` | lambda/common/vapi_provisioning.py:209-331 | The read retry loop: at most one attempt more than the retries, a fault for each failed one, success on the first that is served |
| `VapiRemote.VapiClient.Get` | lambda/common/vapi_provisioning.py:349-354 | A read returns what the account holds, the write-only token excepted, or nothing |
| `VapiRemote.VapiClient.List` | lambda/common/vapi_provisioning.py:333-347 | A scan returns every object of its kind, and refuses a full page |
| `VapiRemote.VapiClient.Post` | lambda/common/vapi_provisioning.py:356-363 | One POST under every outcome (answered with an object or with something else, lost before or after commit, refused, unreadable): the account gains at most one object, the payload; a success names it and its key is new |
| `VapiRemote.VapiClient.Patch` | lambda/common/vapi_provisioning.py:365-389 | One PATCH under every outcome changes at most its object, to the payload |
| `VapiRemote.VapiClient.Remove` | lambda/common/vapi_provisioning.py:391-405 | One DELETE under every outcome removes at most its object |
| `VapiRemote.VapiClient.Update` | lambda/common/vapi_provisioning.py:365-389 | PATCH, read back, PATCH once more, read back: the answer and the account afterwards are exactly `UpdateRun` of the environment's choices (a first answer that is no object is read back, a second is reported at once), every state on the way differs only in that object, and an undisturbed update of an existing object succeeds |
| `VapiRemote.VapiClient.PatchAgain` | lambda/common/vapi_provisioning.py:380-389 | Its second half, PATCH once more and read back, is exactly `UpdateAgain` of the environment's choices |
| `VapiRemote.VapiClient.Delete` | lambda/common/vapi_provisioning.py:391-405 | A delete that returns has removed exactly the one object; on every path nothing else changes |
| `VapiRemote.UpdateIsVisible` | lambda/common/vapi_provisioning.py:408-426 | A reported success leaves every readable attribute as desired |
| `VapiRemote.UpdateIsDurableIff` | lambda/common/vapi_provisioning.py:365-389 | A reported success means the write is stored, for every environment, if and only if the object did not already look as desired while differing in its unreadable token: a token rotation can report success with the old token in place |
| `VapiProvisioning.Find` | lambda/common/vapi_provisioning.py:746-809 | An owner scan: it returns the one object under the deterministic key, none, or fails when the key is ambiguous or taken |
| `VapiProvisioning.Reconcile` | lambda/common/vapi_provisioning.py:437-452 | The follow-up scan after a write whose fate is unknown: an object it returns is the only one under the key, and nothing means there is none |
| `VapiProvisioning.CreateWithReconciliation` | lambda/common/vapi_provisioning.py:429-469 | At most two POSTs; success means exactly one object under the key; every state on the way holds at most that one new object |
| `VapiProvisioning.EnsureAssistant` | lambda/common/vapi_provisioning.py:813-825 | The assistant step: success leaves one owned assistant; an undisturbed run from a recoverable account succeeds |
| `VapiProvisioning.EnsureCredential` | lambda/common/vapi_provisioning.py:826-839 | The credential step, given the assistant: success leaves one credential of the owner, attached to nothing else |
| `VapiProvisioning.ObtainCredential` | lambda/common/vapi_provisioning.py:826-832 | The credential is found or created: success leaves exactly one under the owner's key, and on a recoverable account it passes every check that follows |
| `VapiProvisioning.EnsureAttached` | lambda/common/vapi_provisioning.py:813-844 | Assistant, credential, and the one attached to the other, sound at every state; on a complete account it only takes the assistant back to its preliminary form |
| `VapiProvisioning.EnsureTool` | lambda/common/vapi_provisioning.py:846-855 | The tool step, given the credential: success leaves one prepare tool and moves nothing else |
| `VapiProvisioning.AttachAssistant` | lambda/common/vapi_provisioning.py:840-861 | Writing the owned assistant is sound at every state and, when it returns, stored |
| `VapiProvisioning.RebindTool` | lambda/common/vapi_provisioning.py:856 | Writing the owned tool is sound at every state and, when it returns, stored |
| `VapiProvisioning.FinishCreate` | lambda/common/vapi_provisioning.py:855-861 | The last two writes are sound at every state and, when they return, stored one after the other |
| `VapiProvisioning.CreateCompletes` | lambda/common/vapi_provisioning.py:855-862 | The last two writes complete the goal, and undo nothing on an account that was complete |
| `VapiProvisioning.ProvisionCreate` | lambda/common/vapi_provisioning.py:812-862 | From every account and under every environment: success leaves exactly one assistant, credential and prepare tool of the owner, attached to one another; every state on the way leaves foreign objects alone and is recoverable if the start was; an undisturbed run from a recoverable account succeeds; on a complete account it returns the same identifiers and changes nothing |
| `VapiProvisioning.CrashedCreates` | lambda/common/vapi_provisioning.py:429-469 | Any number of creates, each cut off anywhere, still leave a recoverable account with foreign objects untouched |
| `VapiProvisioning.EmptyScopeIsRecoverable` | lambda/common/vapi_provisioning.py:812-862 | An account with nothing under the owner's keys is recoverable |
| `VapiProvisioning.NotBlocked` | lambda/common/vapi_provisioning.py:746-809 | No owner scan of a recoverable account is ambiguous or taken |
| `VapiDelete.ProvisionUpdate` | lambda/common/vapi_provisioning.py:865-905 | An update never writes the assistant and changes only the credential and tool it names, and only after all ownership checks held; success leaves them as desired (the token excepted); an undisturbed allowed update succeeds |
| `VapiDelete.RotateAndRebind` | lambda/common/vapi_provisioning.py:886-905 | The two writes of an update: nothing but the credential and the tool changes at any state, and success is exactly what the environment made of the first and the second as desired |
| `VapiDelete.CheckUpdate` | lambda/common/vapi_provisioning.py:865-885 | The reads and ownership checks pass only if the update is allowed, and for an undisturbed allowed update they do |
| `VapiDelete.Sweep` | lambda/common/vapi_provisioning.py:913-942 | The pending branch deletes exactly the owner-keyed targets it scanned; at every state, failed runs included, an owned credential is gone only after every tool bound to one, and either only after every owned assistant; undisturbed it returns exactly when no target has a malformed identifier |
| `VapiDelete.ScanTargets` | lambda/common/vapi_provisioning.py:915-935 | The three scans return exactly the owner-keyed targets |
| `VapiDelete.DeleteAll` | lambda/common/vapi_provisioning.py:936-941 | A deletion loop deletes only its keys, at every state, and all of them when it returns |
| `VapiDelete.ReadNamed` | lambda/common/vapi_provisioning.py:944-986 | Undisturbed, the reads and ownership checks of the named objects pass exactly when `ChecksPass`, and they never pass otherwise |
| `VapiDelete.DeleteNamed` | lambda/common/vapi_provisioning.py:988-993 | The named objects that were read are deleted, owned ones only at every state, and all of them when it returns |
| `VapiDelete.DeleteByIds` | lambda/common/vapi_provisioning.py:943-999 | The physical-identifier branch removes the named objects, then sweeps, and returns only from an account that nothing hinders it in |
| `VapiDelete.ProvisionDelete` | lambda/common/vapi_provisioning.py:908-999 | Every state on the way, failed runs included, is the start with owned objects removed and nothing else changed, for the pending identifier in the order of the sweep; a delete that returns leaves exactly `Swept` or `Deleted` of the start; an undisturbed delete, with any identifier and from any account, returns if and only if nothing hinders it: the named objects pass their checks and no object to sweep has a malformed identifier |
| `VapiDelete.DeleteSurvivors` | lambda/common/vapi_provisioning.py:908-999 | After a delete from any account no owned assistant and no owned credential is left, and the surviving prepare tools are exactly those whose credential was not among the owned credentials left when the scan ran |
| `VapiDelete.NoToolSurvivesIff` | lambda/common/vapi_provisioning.py:926-942 | No prepare tool survives if and only if each one, the named one apart, was bound to an owned credential other than the one just deleted |
| `VapiDelete.DuplicateToolOutlivesStack` | lambda/common/vapi_provisioning.py:988-999 | The run that lines 995-998 say cannot happen: from this account nothing stops the delete (`Startable`), and when it returns a duplicate tool bound to the deleted credential is left |
| `VapiDelete.CompleteIsDeletable` | lambda/common/vapi_provisioning.py:940-999 | What a finished create leaves can be deleted by its identifier |
| `VapiDelete.DeletableAfterCrash` | lambda/common/vapi_provisioning.py:940-999 | What an interrupted delete leaves can be deleted again by the same identifier |
| `VapiDelete.InterruptedDeletesConverge` | lambda/common/vapi_provisioning.py:940-999 | After a finished create and any number of deletes by its identifier, each cut off anywhere, one undisturbed delete returns and leaves nothing of the owner |
| `VapiDelete.SweepEmptiesIff` | lambda/common/vapi_provisioning.py:913-942 | The sweep empties the owner's scope if and only if every assistant, credential and tool under the owner's keys is recognizably the owner's, each tool by the credential it is bound to |
| `VapiDelete.SweepableAfterCrash` | lambda/common/vapi_provisioning.py:936-942 | A sweep cut off anywhere leaves an account that the next one can still empty |
| `VapiDelete.InterruptedSweepsConverge` | lambda/common/vapi_provisioning.py:913-942 | From any state a crashed create can leave, after any number of sweeps cut off anywhere, one undisturbed sweep returns and leaves nothing of the owner |
| `VapiDelete.OrderMatters` | lambda/common/vapi_provisioning.py:936-941 | Deleting the credential first would not do: the tool bound to it then survives every later sweep |
| `PhysicalId.ParseIsInverse` | lambda/common/vapi_provisioning.py:534-575 | Rendering and parsing of v2 identifiers are inverse: a text parses to a triple if and only if the triple is valid and renders to it |
| `PhysicalId.ParseV1` | lambda/common/vapi_provisioning.py:563-575 | Exactly the v1 texts parse to identifiers without a credential |
| `PhysicalId.PendingNamesNothing` | lambda/common/vapi_provisioning.py:563-575 | The pending identifier names no resource |
| `Text.JoinSplit` | lambda/common/vapi_provisioning.py:563-575 | Joining the parts of a split text gives the text back |
| `Text.SplitJoin` | lambda/common/vapi_provisioning.py:563-575 | Splitting a joined list gives the list back if and only if no part holds the separator |
| `PhoneOwnership.AtMostOneCounts` | qualification/controller.py:5269-5331 | The at-most-one part of the invariant is: live endpoints and POSTs that may still commit are at most one together |
| `PhoneOwnership.Controller.FindPhone` | qualification/controller.py:2545-2561 | The lookup by intent returns exactly what is live |
| `PhoneOwnership.Controller.WaitForPhone` | qualification/controller.py:2563-2578 | The poll ends, and what it returns is live and the only one |
| `PhoneOwnership.Controller.CreatePhone` | qualification/controller.py:2477-2543 | At most one POST per intent, sent only when nobody holds the name; a lost answer is reconciled by reading; success means exactly this endpoint is live |
| `PhoneOwnership.Controller.PostPhone` | qualification/controller.py:2498-2530 | The POST and the read of the endpoint it names: exactly one request, and success means this endpoint alone is live |
| `PhoneOwnership.Controller.WriteAhead` | qualification/controller.py:5269-5331 | Intent and request journals are durable before the POST, at every crash point |
| `PhoneOwnership.Controller.Seal` | qualification/controller.py:5316-5331 | The identifier is tracked before anything else can fail, and the ownership journal follows |
| `PhoneOwnership.Controller.Provision` | qualification/controller.py:5269-5331 | At every state of a provisioning, failed and crashed ones included, a live or still possible endpoint has its intent and request on record and is the only one; an undisturbed one succeeds with exactly one POST |
| `PhoneOwnership.Controller.ReconcileAndDelete` | qualification/controller.py:6557-6661 | Cleanup reports absence only when no endpoint is live or may still come alive |
| `PhoneOwnership.Controller.DropJournals` | qualification/controller.py:6557-6675 | Journals go only when nothing is left that they account for; success means none is tracked |
| `PhoneOwnership.Controller.DeletePhone` | qualification/controller.py:2580-2596 | Deletes only the tracked endpoint, and forgets its identifier only once its absence is proved |
| `PhoneOwnership.Controller.CleanupSip` | qualification/controller.py:6557-6675 | A clean report means nothing remote and nothing tracked, the stored authentication included; an undisturbed cleanup reports clean if and only if the endpoint is known, can be found, or was never announced, and otherwise leaves a state from which every later cleanup fails, whatever the environment does |
| `PhoneOwnership.Controller.RefusedPost` | qualification/controller.py:5269-5331 | The state a refused POST leaves keeps the invariant and is one from which no cleanup succeeds |
| `PhoneOwnership.Controller.ProvisionReady` | qualification/controller.py:5529-5556 | Up to three endpoints one after the other, at most three POSTs, never two alive at once; undisturbed, the first one does |
| `PhoneOwnership.Controller.Purge` | qualification/controller.py:8378-8393 | The prefix purge runs only with nothing to account for and keeps the invariant even if it stops half way |
| `DirectOwnership.Controller.FindTool` | qualification/controller.py:2203-2239 | A lookup that answers returns exactly the tool that exists |
| `DirectOwnership.Controller.FindAssistant` | qualification/controller.py:2324-2374 | A lookup that answers returns exactly the assistant that exists |
| `DirectOwnership.Controller.CreateTool` | qualification/controller.py:2241-2293 | At most one POST, reconciled by polling; success means exactly this tool exists |
| `DirectOwnership.Controller.CreateAssistant` | qualification/controller.py:2376-2446 | The same for the assistant, which refers to a tool that exists |
| `DirectOwnership.Controller.Install` | qualification/controller.py:5602-5741 | Tool, assistant, binding in that order; at every state the binding names a live assistant, every assistant calls a live tool, and what is live or possible has its journals; an undisturbed installation succeeds |
| `DirectOwnership.Controller.AnnounceTool` | qualification/controller.py:5640-5655 | Intent and request of the tool are durable before its POST |
| `DirectOwnership.Controller.InstallTool` | qualification/controller.py:5640-5671 | The tool is created only after its intent and request are durable, and is tracked from the request on |
| `DirectOwnership.Controller.AnnounceAssistant` | qualification/controller.py:5672-5703 | Intent and request of the assistant are durable before its POST |
| `DirectOwnership.Controller.InstallAssistant` | qualification/controller.py:5672-5729 | The assistant is tracked from its request on, and calls the tool just installed |
| `DirectOwnership.Controller.Unbind` | qualification/controller.py:5756-5787 | The secret is only ever set back from this execution's own binding, and it is known unbound exactly when that worked |
| `DirectOwnership.Controller.DeleteAssistant` | qualification/controller.py:2448-2475 | Deletes only an unbound assistant, and clears its identifier only on success |
| `DirectOwnership.Controller.DeleteTool` | qualification/controller.py:2295-2322 | Deletes only a tool no assistant calls, and clears its identifier only on success |
| `DirectOwnership.Controller.CleanupAssistant` | qualification/controller.py:5788-5839 | The assistant is deleted only once the binding is known unbound |
| `DirectOwnership.Controller.CleanupTool` | qualification/controller.py:5840-5885 | The tool is deleted only when no assistant is tracked or ambiguous |
| `DirectOwnership.Controller.ProveAbsence` | qualification/controller.py:5899-5983 | The recovery flags are cleared only on a proof of absence, and exactly when the identifiers that proof needs are still known |
| `DirectOwnership.Controller.Cleanup` | qualification/controller.py:5743-5984 | Every state is safe; an undisturbed cleanup finishes if and only if `Settles`, and otherwise leaves a state (tool identifier forgotten, or an ambiguous creation with nothing to find) from which every later cleanup fails, whatever the environment does |
| `DirectOwnership.Controller.RefusedPost` | qualification/controller.py:5640-5655 | The state a refused POST of the tool leaves keeps the invariant and is one from which no cleanup succeeds |
| `DirectOwnership.Controller.Purge` | qualification/controller.py:8378-8393 | The prefix purge runs only with nothing to account for and keeps the invariant even if it stops half way |
| `CleanupOrder.Cleanup.Run` | qualification/controller.py:8224-8392 | Over all failure patterns the journals are purged only when no endpoint, direct resource, binding, resilience or certificate recovery is outstanding, and both ownership invariants hold at every state; undisturbed and with nothing else outstanding, they are purged if and only if both protocols started in a state from which a cleanup finishes |
| `CleanupOrder.Cleanup.CleanBoth` | qualification/controller.py:8236-8238 | The two cleanups in order: undisturbed, nothing is left to recover exactly if both could finish |
| `Decimal.ParseOf` | lambda/common/aws_runtime.py:264-268 | Reading back the decimal text of any integer gives the integer |
| `Decimal.OfIsInjective` | lambda/common/aws_runtime.py:283-284 | Different integers have different texts |
| `DynamoValue.DecodeEncode` | lambda/common/aws_runtime.py:258-293 | Whatever is encoded for the table decodes to itself |
| `DynamoValue.EncodeOkIff` | lambda/common/aws_runtime.py:280-293 | Encoding succeeds exactly for values nested at most two deep without empty maps or keys |
| `HandoffRow.FixedAttributes` | lambda/common/aws_runtime.py:332-471 | No interleaving of the conditional writes touches an attribute that no update names |
| `HandoffRow.ContentIsWriteOnce` | lambda/common/aws_runtime.py:386-452 | Once set, the content hash and the call fingerprint stay until the row is deleted, under any interleaving |
| `HandoffRow.ValuesAreWriteOnce` | lambda/common/aws_runtime.py:386-452 | So do the screen-pop values, if the hash is injective |
| `HandoffRow.NeverMappedAgain` | lambda/common/aws_runtime.py:356-471 | A row never returns to MAPPED |
| `HandoffRow.StatusFallsIff` | lambda/common/aws_runtime.py:356-471 | A write takes a row back (from RESERVED, PREPARED, MAPPED to an earlier one) exactly if it is a direct preparation accepted on a reserved row |
| `HandoffRow.ReservedStaysIff` | lambda/common/aws_runtime.py:356-471 | Over any interleaving a reserved row stays reserved all along if and only if no direct preparation is accepted on it |
| `Handoff.PreparedNeverFalls` | lambda/common/aws_runtime.py:356-471 | The row of a telephone call never goes back under any interleaving: its reservation is final until deletion |
| `HandoffDirect.ReservedGoesBackToPrepared` | lambda/common/aws_runtime.py:386-452 | The row of a direct session, as staged, does go back: a repeated handoff takes it from RESERVED to PREPARED |
| `HandoffRow.StaysActive` | lambda/common/aws_runtime.py:332-471 | A prepared or reserved row stays one of the two |
| `HandoffRow.ExactlyOneCreated` | lambda/common/aws_runtime.py:332-342 | Among any interleaved preparations of an absent row exactly one is told "created", and none of a present one |
| `HandoffRow.ReplayedIffSame` | lambda/common/aws_runtime.py:343-354 | Whatever ran in between, a loser is told "replayed" if and only if it carries the winner's schema version, fingerprint and content |
| `HandoffSystem.PrintsDiffer` | lambda/common/aws_runtime.py:402-404 | A direct and a telephone fingerprint never agree |
| `HandoffSystem.NextKeepsInv` | lambda/common/bridgefu_handoff.py:372-399 | Every single step of every concurrent invocation, and every deletion, keeps the system invariant of a direct session and that of a telephone call |
| `HandoffSystem.AttemptsAreStaged` | lambda/common/bridgefu_handoff.py:372-399 | Over all interleavings on the row of a direct session or of a telephone call, deleted and created anew at any time: every replace request carries the route staged when its row was created and, while that row exists, the row holds exactly the values of the invocation that sent it; no invocation sends more than five; no transfer ever reads a direct row and no request ever comes from a telephone row |
| `HandoffSystem.RunsKeepInv` | lambda/common/bridgefu_handoff.py:372-399 | So does every run |
| `HandoffDirect.AttemptsReachScreen` | lambda/common/bridgefu_handoff.py:618-694 | Over all interleavings of a direct session, as long as the row that a replace request was sent for exists, every lookup shows exactly the values of the invocation that sent it, in field order, until the row expires |
| `HandoffDirect.ContextIsStaged` | qualification/controller.py:2728-2768 | The staged context is such a record: no fingerprint, no content hash, no call reference, an hour to live, and exactly the bound route on it |
| `HandoffDirect.NextKeepsShape` | lambda/common/aws_runtime.py:386-471 | Every step keeps what a lookup needs of a staged record: decodable, without a call reference, of the current schema, and prepared or reserved once values are stored |
| `HandoffCalls.SystemRefinesRow` | lambda/common/aws_runtime.py:332-471 | The whole system acts on the row only through the conditional writes |
| `HandoffCalls.Invocation.PutPrepared` | lambda/common/aws_runtime.py:332-354 | "created" is told only if this very write found no row; "replayed" and the conflict only of a row really read afterwards; the request may be lost before it commits, and then that is the error |
| `HandoffCalls.Invocation.PrepareDirect` | lambda/common/aws_runtime.py:386-452 | Success means the values were stored under the caller's identity, the returned route is the one on that row, and the requests to come are recorded for these values; a request lost before it commits is reported |
| `HandoffCalls.Invocation.MarkDirectStarted` | lambda/common/aws_runtime.py:454-471 | Success means the conditional write took effect; a request lost before it commits is reported |
| `HandoffCalls.Invocation.Replace` | lambda/common/aws_runtime.py:587-655 | The same request at most five times, again only after the answer that the call is busy, none if the route is not the configured one; success exactly on an accepted last answer |
| `HandoffCalls.Invocation.PrepareHandoff` | lambda/common/bridgefu_handoff.py:436-496 | Writes at most once, and exactly the record of the validated values, within the lifetime bounds, and reports what the store did |
| `HandoffCalls.Invocation.DirectBrowserHandoff` | lambda/common/bridgefu_handoff.py:372-411 | Its own steps are: store the values, then at most five replace requests of its own flight, then mark started; nothing is sent for a refused token or invalid values; success means the last write took effect |
| `HandoffCalls.Invocation.TransferDestination` | lambda/common/bridgefu_handoff.py:546-615 | Reads the row as one of this very call, unexpired and prepared, before it reserves; marks it reserved with a well-formed, unexpired reservation; success means the mark took effect and the address is the allowed rewriting of the reserved one |
| `HandoffCalls.CreatedReachesScreen` | lambda/common/bridgefu_handoff.py:618-694 | Wherever in a system history a preparation created the row, until it is deleted every unexpired lookup shows exactly the validated values |
| `Handoff.ProtocolAttributes` | lambda/common/bridgefu_handoff.py:466-488 | No configured field key can overwrite schema version, correlation, reference, nested values, schema hash, fingerprint, content hash, the three times or the status, or plant a call or attachment time |
| `Handoff.NotAccepted` | lambda/common/aws_runtime.py:414-420 | A field may be called direct_token_id, which no check reserves, but that opens nothing: no direct preparation is ever accepted on a prepared row |
| `Handoff.RecordEncodes` | lambda/common/aws_runtime.py:280-297 | Every record a configured preparation builds can be stored |
| `Handoff.PrepareToScreen` | lambda/common/bridgefu_handoff.py:436-694 | Encode, store, any writes of others, project, decode, validate again: the screen shows the validated values in field order with the routing value until expiry, and nothing from then on |
| `Handoff.ReplayCarriesSameValues` | lambda/common/aws_runtime.py:343-354 | A preparation told "replayed" carries the call and the values already stored |
| `Handoff.ReplayedToScreenIff` | lambda/common/bridgefu_handoff.py:650-694 | But the stored configuration is not compared: for any two accepted configurations, a replayed preparation shows its own values on the screen if and only if the row was written under the same fields, or the keys are the four default ones and no queue is picked; otherwise nothing is shown |
| `Handoff.RelabelledReplay` | lambda/common/aws_runtime.py:343-354 | One changed label is enough: the same call with the same arguments is told "replayed", and the screen then shows nothing, or the new label if the keys are the four default ones |
| `Handoff.RelabelledExample` | lambda/common/screen_pop.py:112-206 | Two accepted configurations that differ in one label only |
| `Json.DumpsIsInjective` | lambda/common/screen_pop.py:77-97 | Compact JSON text determines the value |
| `ScreenPop.ParseFields` | lambda/common/screen_pop.py:112-206 | The loop accepts exactly the acceptable configurations, returns their fields in order, and never the size error, which is unreachable |
| `ScreenPop.ReparseIff` | lambda/common/screen_pop.py:77-206 | A parsed configuration written canonically is parsed to itself if and only if it has no choice field and its text fits, and refused otherwise: a choice field is written with a length that parsing refuses |
| `ScreenPop.FieldsJsonIsInjective` | lambda/common/screen_pop.py:77-97 | The canonical text determines every parsed configuration, so equal schema hashes mean equal fields |
| `ScreenPop.ValidateValues` | lambda/common/screen_pop.py:213-243 | The loop computes `Validate`, errors included |
| `ScreenPop.ValidateIsIdempotent` | lambda/common/screen_pop.py:213-243 | Validated values validate again, to themselves |
| `ScreenPop.LabelsDoNotMatter` | lambda/common/screen_pop.py:213-243 | Configurations that differ in labels only validate the same values |
| `ScreenPop.ConnectRows` | lambda/common/screen_pop.py:266-282 | The loop fills the eight rows |
| `ScreenPop.RowAt` | lambda/common/screen_pop.py:266-282 | Row i shows label, value and key of field i, for all rows at once: no row key collides with another |
| `SecretCache.Runtime.Load` | lambda/common/aws_runtime.py:160-193 | A cached load returns a value the store held less than five minutes before the call, an uncached one a value it held since; an uncached load neither uses nor fills the cache |
| `Routing.Compile` | lambda/configuration/handler.py:71-157 | The loop accepts exactly routable tables (publication and rendered size aside) and emits their conditions and transfers in order |
| `Routing.FlowIsDistinct` | lambda/configuration/handler.py:108-141 | No two actions of the rendered flow share an identifier |
| `Routing.CompiledMeaning` | lambda/configuration/handler.py:71-157 | Compilation preserves meaning: interpreting the rendered flow on any contact, with any actions failing, does what the table says |
| `Routing.UnroutedMeaning` | lambda/configuration/handler.py:72-73 | Without a table every contact goes to the customer's flow |
| `Routing.EveryRouteIsReached` | lambda/configuration/handler.py:88-95 | Each route is reached, by exactly the contacts with its value |
| `Routing.LookupIsRouted` | lambda/common/bridgefu_handoff.py:618-694 | Composed with the lookup of any row and with the rendered flow: the flow ends where the table lists the routing value that `ReadAndLookup` returned, and for an unavailable screen or an empty optional choice in the customer's flow |
| `Routing.PreparedIsRouted` | lambda/configuration/handler.py:71-157 | From the tool call to the queue: the contact of a created handoff ends, until expiry, where the table lists the value its caller chose, whatever other writes came between, and afterwards in the customer's flow |
| `Routing.FailedLookupIff` | cloudformation/nested/connect.yaml:195-226 | A failed lookup goes to the customer's flow if and only if no route is listed for the value "unavailable", which the flow then sets |
| `DeploymentReview.NestedChangeSets` | qualification/deployment_review.py:532-621 | The loop accepts exactly the safe inventories, and pairs every nested stack with its own child |
| `DeploymentReview.BuildCatalog` | qualification/deployment_review.py:657-670 | The loop accepts exactly ten sealed templates with different valid URLs, and holds them |
| `DeploymentReview.ReviewNode` | qualification/deployment_review.py:701-740 | The reads of one node pass if and only if AWS, when truthful, holds an acceptable description and the sealed template; whatever AWS answers, the description and that very template were read |
| `DeploymentReview.ReviewChildStack` | qualification/deployment_review.py:761-775 | The reads of a child pass if and only if AWS, when truthful, holds an acceptable child; whatever AWS answers, its stack was read as under review, nested in the stack of its parent and under the root |
| `DeploymentReview.Visit` | qualification/deployment_review.py:701-787 | One node popped from the queue is reviewed and its children queued |
| `DeploymentReview.Expand` | qualification/deployment_review.py:755-787 | Every nested stack of the node is looked up and queued exactly once |
| `DeploymentReview.Traverse` | qualification/deployment_review.py:679-790 | The breadth-first loop ends on every sequence of answers; what it accepts is `Accepted`, and `Evidence`: every description, template and stack record it rests on was read; a truthful AWS that holds an acceptable hierarchy is accepted |
| `DeploymentReview.Review` | qualification/deployment_review.py:624-790 | The same for the whole review, with its catalog, its coordinates and the root stack, which was read as under review without a parent and fits the request |
| `DeploymentReview.AcceptedIsSpanningTree` | qualification/deployment_review.py:679-790 | An accepted review proves that the ten sealed templates form one tree under the root, of height at most eight, and every template is in it |
| `DeploymentReview.StacksMirrorTemplates` | qualification/deployment_review.py:755-787 | The stacks realise the same tree: for every nesting of the sealed templates the stack of the nested one was read as under review with the stack of the nesting one as its parent |
| `DeploymentReview.NothingUnreviewed` | qualification/deployment_review.py:573-620 | The change sets named by any record of an accepted hierarchy are exactly those of its other nodes, each read and checked against its own sealed template, and no record of any of them can modify, replace or remove a resource |
| `ObjectVersions.AddItems` | qualification/controller.py:1566-1604 | One list of a page is accepted exactly if its items are well formed, in the target, new and within the bound |
| `ObjectVersions.ReadPage` | qualification/controller.py:1541-1620 | One page: an honest one, full or short, advances the listing by exactly its items |
| `ObjectVersions.ExecutionsAreApart` | qualification/controller.py:1515-1528 | The targets of different executions have no object in common |
| `ObjectVersions.ListExact` | qualification/controller.py:1531-1621 | Against any server it ends within a hundred pages and returns different identities of the target; an honest server, whatever the size of its pages, is listed completely or refused, refused only if it holds what must be refused or takes more than a hundred pages, and never for the latter if its pages are full |
| `ObjectVersions.PurgeExact` | qualification/controller.py:1624-1668 | Only listed identities of the target are deleted, in chunks of at most a thousand that partition the list; a normal return follows an empty listing; an honest bucket loses exactly the chunks requested and, on return, exactly the target, and the purge fails only if it holds what must be refused or a listing takes more than a hundred pages |
| `StableWindows.DeleteOwned` | qualification/controller.py:2118-2158 | It returns exactly when the absent reads at the end cover the window; every DELETE directly follows a read of the exact, owned object; the loop ends, and every other ending has its cause: a failed request, an object that is not owned, or the deadline |
| `StableWindows.WaitActive` | qualification/controller.py:3676-3733 | It returns exactly at the first read with which the count of active time, which missing reads do not restart, covers the window; the loop ends, and every other ending has its cause, a negative polling interval included |
| `StableWindows.UnbrokenIff` | qualification/controller.py:3686-3729 | When it returns, the window it measured is one continuous active interval if and only if no read since its start was missing |
| `StableWindows.SteadyForIff` | qualification/controller.py:3686-3691 | A log ends with a continuous active interval of the span exactly when the active reads since the last other one cover it |
| `StableWindows.MissingDoesNotReset` | qualification/controller.py:3686-3729 | So a wait can return without the continuous active interval it is documented to require: a log in time order, with missing reads after its first active one, on which it returns at the last read and not before, and on which no continuous interval of the span ends |
| `StableWindows.EmptyIsUnique` | qualification/release_safeguards.py:1097-1106 | Two empty inventories have the same projection |
| `StableWindows.StableZeroProof` | qualification/release_safeguards.py:1109-1183 | The call concludes exactly when a streak of at least three empty observations has held for the span, and then with the last three of it if their timestamps are in order and far enough apart, and with an error if not; the loop ends, and every other ending has its cause |
| `StableWindows.VerifiedIffStrict` | release/verify_qualification_relations.py:146-173 | A proof with the default span passes the release verifier if and only if its three timestamps are all different |
| `StableWindows.SteadyClockIsVerified` | release/verify_qualification_relations.py:146-176 | If the timestamps run with the monotonic clock, every proof of the default span passes the verifier |
| `StableWindows.ProvenButNotVerified` | release/verify_qualification_relations.py:171-176 | Three observations on which the producer concludes with a proof that the release verifier refuses; no clock that runs steadily stamps them so |
| `Base64Url.DecodeEncode` | qualification/bridgefu_web_handoff.py:62-74 | Reading back works for every byte string but the empty one |
| `Base64Url.EncodeDecodeIff` | qualification/bridgefu_web_handoff.py:62-74 | Writing again what was read gives the same text if and only if the dropped bits are zero |
| `HandoffToken.IssuedIsVerified` | qualification/bridgefu_web_handoff.py:77-170 | An issued token is accepted exactly from five seconds before its issue to five seconds after its expiry, and yields its session and token identifiers |
| `HandoffToken.VerifiersAgree` | lambda/common/bridgefu_handoff.py:321-369 | The two verifiers, written separately, agree on every text and at every time if both accept or both refuse the length of the key |
| `HandoffToken.VerifiersAgreeIff` | lambda/common/bridgefu_handoff.py:321-369 | The two verifiers agree on an issued token at all times if and only if the key is at most 4096 bytes in UTF-8 |
| `ContentManifest.Build` | release/ami_cache.py:63-106 | The loop feeds the digest exactly the specified stream, records every input, and fails exactly on an invalid version, a repeated path, a file that is none, an overlong length, or an invalid lock |
| `ContentManifest.StreamIsInjective` | release/ami_cache.py:69-86 | The digested bytes determine the release version and the ordered list of paths and contents |

## Left out

- VapiRemote.VapiClient.Update: an object is a record of the attributes the protocol looks at and PATCH replaces that
  record; the subset comparison of nested payloads is equality of its readable part.
- VapiRemote.VapiClient.Post: a POST commits while it is sent or not at all, and reads see every committed write;
  identifiers chosen by the server that are malformed or already taken are treated as a refused write.
- VapiProvisioning.ProvisionCreate: HTTP statuses, Retry-After, deadlines and payload contents are abstract.
- HandoffSystem.AttemptsAreStaged: one correlation identifier is that of a direct session, drawn at random, or of a
  telephone call, keyed to it; a collision of the two kinds is not part of this model. The hashes are injective.
- Handoff.ProtocolAttributes: the four direct_ attributes are not covered: a configured key may be one of these names.
- PhoneOwnership.Controller.DeletePhone: the loop that deletes until absence is stable is one answer here; the loop itself
  is `StableWindows.DeleteOwned`.
- DirectOwnership.Controller.DeleteAssistant: likewise one answer.
- DirectOwnership.Controller.DeleteTool: likewise one answer.
- DirectOwnership.Controller.FindTool: an ambiguous or conflicting match is one of the failures of the call, not a state of
  the account.
- DirectOwnership.Controller.FindAssistant: likewise.
- HandoffCalls.Invocation.TransferDestination: the reservation request itself is the environment's answer; its
  idempotency key depends only on the correlation identifier.
- PhoneOwnership.Controller.Provision: starts from a process that found no endpoint of its execution; resuming from the
  journals of an earlier process is not part of this model, nor are the contents of the journals beyond the intent.
- CleanupOrder.Cleanup.Run: the other recoveries (resilience, certificate validation, stack identity) are one answer each.
- Handoff.PrepareToScreen: only the configured (second) schema; rows of the first schema version are modelled as the
  lookup's fallback but prepared by code that is not part of this model.
- ScreenPop.ReparseIff: case folding, regular expressions beyond the listed alphabets and the JSON decoder are parameters;
  the decoder is assumed to read back the one text in question.
- Routing.Compile: ARN parsing is a parameter; that a flow is published is the environment's answer.
- DeploymentReview.Review: ARN and URL parsing, template normalisation and the comparison of the root invocation are
  parameters; the children of a node are queued in any order, not only the sorted one; the proof digest is left out.
- ObjectVersions.ListExact: a page is truncated exactly if something is left to list; the bucket name's pattern is left out.
- StableWindows.DeleteOwned: time is counted in whole units and a request takes at least one, so that the loop ends; with a
  clock that stands still it would not.
- HandoffToken.IssuedIsVerified: JSON encoding and decoding are parameters assumed faithful on the two objects of the
  token, and the digest is assumed not empty.
- ContentManifest.Build: the file system is a function from paths to contents, so a file that changes between two reads is
  not captured; the lock's own checks are one answer.
- SecretCache.Runtime.Load: time is a whole number of seconds, and the lock around the cache is not modelled.
- The rendered shell programs, Playwright, SSM and browser code, quota and inventory checks, IAM and bucket policy
  verification, evidence documents and metrics are left out: they are I/O or flat comparisons.
