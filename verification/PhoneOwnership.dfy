/** The temporary SIP endpoint of a qualification run: write-ahead journals, one POST per intent, cleanup
    (qualification/controller.py: `Vapi.create_phone`, `provision_temporary_vapi_phone`,
    `provision_ready_temporary_vapi_phone`, `cleanup_sip_transients`).

    The environment may stop the process anywhere, fail any call before or after it took effect, and commit
    a POST whose answer was lost at any later time. */
module PhoneOwnership {
  import opened Wrappers
  import Collections

  /** The stable identity of one endpoint (`vapi_phone_intent`). The name is fixed by the execution. */
  datatype Intent = Intent(assistantId: string, username: string)

  datatype Journal = IntentJournal | RequestJournal | OwnershipJournal

  /** The remote side: live endpoints under this execution's name, POSTs that may still commit, and the
      ownership journals in S3. */
  datatype World = World(phones: map<string, Intent>, pending: set<Intent>, journals: map<Journal, Intent>)

  datatype Failure = Rejected | Unreconciled

  predicate Journaled(w: World, i: Intent) {
    && IntentJournal in w.journals && w.journals[IntentJournal] == i
    && RequestJournal in w.journals && w.journals[RequestJournal] == i
  }

  /** The write-ahead rule: an endpoint that is live, or may still come alive, has its intent and its
      request on record; and there is at most one. */
  ghost predicate Safe(w: World) {
    && (forall id :: id in w.phones ==> Journaled(w, w.phones[id]))
    && (forall i :: i in w.pending ==> Journaled(w, i))
    && AtMostOne(w)
  }

  ghost predicate AtMostOne(w: World) {
    && (forall a, b :: a in w.phones && b in w.phones ==> a == b)
    && (forall a, b :: a in w.pending && b in w.pending ==> a == b)
    && (w.phones == map[] || w.pending == {})
  }

  ghost predicate Empty(w: World) {
    w.phones == map[] && w.pending == {}
  }

  ghost predicate AllSafe(h: seq<World>) {
    forall k :: 0 <= k < |h| ==> Safe(h[k])
  }

  /** What `Safe` says in numbers. */
  lemma AtMostOneCounts(w: World)
    ensures AtMostOne(w) <==> |w.phones| + |w.pending| <= 1
  {
    if AtMostOne(w) {
      if id :| id in w.phones {
        assert w.phones.Keys == {id};
      }
      if i :| i in w.pending {
        assert w.pending == {i};
      }
    } else if |w.phones| + |w.pending| <= 1 {
      if a, b :| a in w.phones && b in w.phones && a != b {
        assert {a, b} <= w.phones.Keys;
        Collections.SubsetSize({a, b}, w.phones.Keys);
      }
      if a, b :| a in w.pending && b in w.pending && a != b {
        assert {a, b} <= w.pending;
        Collections.SubsetSize({a, b}, w.pending);
      }
    }
  }

  /** What one POST told its sender: the endpoint, a refusal, an identifier that reads back as another endpoint or
      not at all, or nothing. */
  datatype Posted = Made(id: string) | Refused | Misread | Unknown

  class Controller {
    var world: World
    /** Every state the remote side has been in since this process began. */
    ghost var history: seq<World>
    /** POSTs sent by this process. */
    ghost var posts: nat
    /** How many calls have failed, before or after they took effect. */
    ghost var faults: nat

    var phoneId: Option<string>
    var intent: Option<Intent>
    var intentJournal: bool
    var requestJournal: bool
    var ownershipJournal: bool
    var creationAmbiguous: bool
    var sipAuthentication: bool   // temp_sip_auth_object

    /** The in-memory state is enough to account for everything remote. */
    ghost predicate Valid()
      reads this
    {
      && |history| > 0 && history[|history| - 1] == world && AllSafe(history) && Safe(world)
      && (!Empty(world) ==> intentJournal && requestJournal && intent.Some?
                            && (forall id :: id in world.phones ==> world.phones[id] == intent.value)
                            && (forall i :: i in world.pending ==> i == intent.value))
      && (phoneId.Some? ==> intent.Some? && world.pending == {} && world.phones.Keys <= {phoneId.value})
      && (creationAmbiguous ==> intent.Some?)
    }

    /** A process that starts with no endpoint of its execution in the account, as its preflight demands. */
    constructor (journals: map<Journal, Intent>)
      ensures Valid() && history == [World(map[], {}, journals)] && posts == 0 && faults == 0
      ensures phoneId.None? && intent.None? && !intentJournal && !requestJournal && !ownershipJournal
              && !sipAuthentication
    {
      world := World(map[], {}, journals);
      history := [World(map[], {}, journals)];
      posts, faults := 0, 0;
      phoneId, intent := None, None;
      intentJournal, requestJournal, ownershipJournal, creationAmbiguous := false, false, false, false;
      sipAuthentication := false;
    }

    /** The state after the journals were written ahead and the POST was refused: nothing exists, but the request is
        on record, so no cleanup ever succeeds. */
    constructor RefusedPost(i: Intent)
      ensures Valid() && Stuck() && !Settles() && Empty(world)
      ensures intent == Some(i) && Journaled(world, i) && intentJournal && requestJournal && creationAmbiguous
    {
      world := World(map[], {}, map[IntentJournal := i, RequestJournal := i]);
      history := [World(map[], {}, map[IntentJournal := i, RequestJournal := i])];
      posts, faults := 1, 1;
      phoneId, intent := None, Some(i);
      intentJournal, requestJournal, ownershipJournal, creationAmbiguous := true, true, false, true;
      sipAuthentication := false;
    }

    /** Records a new remote state. */
    method Become(w: World)
      requires AllSafe(history) && Safe(w)
      modifies this`world, this`history
      ensures world == w && history == old(history) + [w] && AllSafe(history)
    {
      world := w;
      history := history + [w];
    }

    /** The environment may commit a lost POST now. */
    method Drift()
      requires Valid()
      modifies this`world, this`history
      ensures Valid() && old(history) <= history
      ensures world.journals == old(world).journals
      ensures old(world).pending == {} ==> world == old(world)
      ensures Empty(world) <==> Empty(old(world))
    {
      var commits: bool, id: string, lost: Intent := *, *, *;
      if commits && lost in world.pending && id !in world.phones {
        assert world.pending == {lost};
        Become(world.(phones := world.phones[id := lost], pending := world.pending - {lost}));
      }
    }

    /** One S3 put; it may take effect and still fail. */
    method Put(j: Journal, i: Intent) returns (ok: bool)
      requires Valid()
      requires Empty(world) || j == OwnershipJournal
      modifies this`world, this`history, this`faults
      ensures Valid() && old(history) <= history
      ensures old(world).pending == {} ==> world.phones == old(world).phones && world.pending == {}
      ensures Empty(world) <==> Empty(old(world))
      ensures forall k :: k != j ==> (k in world.journals <==> k in old(world).journals)
      ensures forall k :: k != j && k in world.journals ==> world.journals[k] == old(world).journals[k]
      ensures ok ==> j in world.journals && world.journals[j] == i
      ensures old(faults) <= faults && (faults == old(faults) ==> ok)
    {
      Drift();
      var effect: bool, answered: bool := *, *;
      if effect {
        Become(world.(journals := world.journals[j := i]));
      }
      ok := effect && answered;
      faults := faults + if ok then 0 else 1;
    }

    /** One S3 delete; it may take effect and still fail. */
    method Remove(j: Journal) returns (ok: bool)
      requires Valid() && Empty(world)
      modifies this`world, this`history, this`faults
      ensures Valid() && old(history) <= history && Empty(world)
      ensures ok ==> j !in world.journals
      ensures old(faults) <= faults && (faults == old(faults) ==> ok)
    {
      var effect: bool, answered: bool := *, *;
      if effect {
        Become(world.(journals := world.journals - {j}));
      }
      ok := effect && answered;
      faults := faults + if ok then 0 else 1;
    }

    /** `find_phone_for_intent` */
    method FindPhone(i: Intent) returns (r: Result<Option<string>, Failure>)
      requires Valid()
      modifies this`world, this`history, this`faults
      ensures Valid() && old(history) <= history && world.journals == old(world).journals
      ensures Empty(world) <==> Empty(old(world))
      ensures r.Ok? && r.value.None? ==> world.phones == map[]
      ensures r.Ok? && r.value.Some? ==> r.value.value in world.phones && world.phones[r.value.value] == i
      ensures r.Ok? && r.value.Some? ==> world.pending == {} && world.phones.Keys == {r.value.value}
      ensures old(world).pending == {} ==> world == old(world)
      ensures old(faults) <= faults && (faults == old(faults) && intent == Some(i) ==> r.Ok?)
    {
      Drift();
      var served: bool := *;
      if !served {
        faults := faults + 1;
        return Err(Rejected);
      }
      if world.phones == map[] {
        return Ok(None);
      }
      var id :| id in world.phones;
      assert world.phones.Keys == {id};
      if |world.phones| != 1 {
        return Err(Rejected);
      }
      if world.phones[id] != i {
        return Err(Rejected);
      }
      return Ok(Some(id));
    }

    /** `_wait_for_phone_intent`: polls until the endpoint shows or the deadline passes. */
    method WaitForPhone(i: Intent, timeout: nat) returns (r: Result<Option<string>, Failure>)
      requires Valid()
      modifies this`world, this`history, this`faults
      ensures Valid() && old(history) <= history && world.journals == old(world).journals
      ensures Empty(world) <==> Empty(old(world))
      ensures r.Ok? && r.value.Some? ==> r.value.value in world.phones && world.phones[r.value.value] == i
      ensures r.Ok? && r.value.Some? ==> world.pending == {} && world.phones.Keys == {r.value.value}
      ensures old(faults) <= faults
    {
      var now := 0;
      while true
        invariant Valid() && old(history) <= history && world.journals == old(world).journals && old(faults) <= faults
        invariant Empty(world) <==> Empty(old(world))
        decreases timeout - now
      {
        r := FindPhone(i);
        if r.Err? || r.value.Some? {
          return;
        }
        if now >= timeout {
          return Ok(None);
        }
        var slept: int := *;
        now := now + if slept > 0 then slept else 1;
      }
    }

    /** `create_phone`: sends at most one POST, and only when no endpoint holds the name. */
    method CreatePhone(i: Intent) returns (r: Result<string, Failure>)
      requires Valid() && Journaled(world, i) && world.pending == {}
      requires intent == Some(i) && intentJournal && requestJournal && phoneId.None?
      modifies this`world, this`history, this`faults, this`posts
      ensures Valid() && old(history) <= history && world.journals == old(world).journals
      ensures posts <= old(posts) + 1
      ensures r.Ok? ==> world.pending == {} && world.phones.Keys == {r.value} && world.phones[r.value] == i
      ensures old(faults) <= faults
      ensures faults == old(faults) ==> r.Ok? && posts == old(posts) + if old(world).phones == map[] then 1 else 0
    {
      hide AllSafe;
      var existing :- FindPhone(i);
      if existing.Some? {
        return Ok(existing.value);
      }
      var sent := PostPhone(i);
      match sent
      case Made(id) => return Ok(id);
      case Refused => return Err(Rejected);
      case Misread => return Err(Unreconciled);
      case Unknown =>
        var found := WaitForPhone(i, 20);
        if found.Err? || found.value.None? {
          return Err(Unreconciled);
        }
        return Ok(found.value.value);
    }

    /** The POST itself, and the read of the endpoint it was answered with if that does not match the intent. It may
        take effect unanswered, or take effect later. */
    method PostPhone(i: Intent) returns (sent: Posted)
      requires Valid() && Journaled(world, i) && Empty(world)
      requires intent == Some(i) && intentJournal && requestJournal && phoneId.None?
      modifies this`world, this`history, this`faults, this`posts
      ensures Valid() && old(history) <= history && world.journals == old(world).journals
      ensures posts == old(posts) + 1
      ensures sent.Made? ==> world.pending == {} && world.phones == map[sent.id := i]
      ensures old(faults) <= faults && (faults == old(faults) ==> sent.Made?)
    {
      hide AllSafe;
      posts := posts + 1;
      var effect: bool, answered: bool, matching: bool, lost: bool, id: string := *, *, *, *, *;
      if effect {
        Become(world.(phones := map[id := i]));
        var exact: bool := *;
        if answered && (matching || exact) {
          return Made(id);
        }
      } else if lost {
        Become(world.(pending := {i}));
      }
      faults := faults + 1;
      var misread: bool := *;
      return if misread then Misread else if answered && !effect && !lost then Refused else Unknown;
    }

    /** `provision_temporary_vapi_phone` */
    method Provision(assistantId: string) returns (r: Result<string, Failure>)
      requires Valid()
      modifies this
      ensures Valid() && old(history) <= history
      ensures posts <= old(posts) + 1 && sipAuthentication == old(sipAuthentication)
      ensures r.Ok? ==> phoneId == Some(r.value) && intent.Some? && intentJournal && requestJournal
      ensures old(faults) <= faults
      ensures faults == old(faults) && old(Clear()) ==>
                r.Ok? && posts == old(posts) + 1
                && world.phones.Keys == {r.value}
    {
      hide AllSafe;
      if phoneId.Some? || intent.Some? || intentJournal || requestJournal || ownershipJournal {
        return Err(Rejected);
      }
      var username: string := *;
      var i := Intent(assistantId, username);
      var journaled := WriteAhead(i);
      if !journaled {
        return Err(Rejected);
      }
      var created :- CreatePhone(i);
      r := Seal(created, i);
    }

    /** The journals that must be durable before the POST. */
    method WriteAhead(i: Intent) returns (ok: bool)
      requires Valid() && Empty(world) && phoneId.None? && intent.None? && !intentJournal && !requestJournal
      modifies this`world, this`history, this`faults, this`intent, this`intentJournal, this`requestJournal,
          this`creationAmbiguous
      ensures Valid() && old(history) <= history && Empty(world)
      ensures ok ==> Journaled(world, i) && intent == Some(i) && intentJournal && requestJournal
      ensures old(faults) <= faults && (faults == old(faults) ==> ok)
    {
      intent := Some(i);
      var wroteIntent := Put(IntentJournal, i);
      if !wroteIntent {
        return false;
      }
      intentJournal := true;
      var wroteRequest := Put(RequestJournal, i);
      if !wroteRequest {
        return false;
      }
      requestJournal := true;
      creationAmbiguous := true;
      return true;
    }

    /** What follows the POST: the ownership journal, then the wait for the endpoint to become active. */
    method Seal(created: string, i: Intent) returns (r: Result<string, Failure>)
      requires Valid() && intent == Some(i) && phoneId.None?
      requires world.pending == {} && world.phones.Keys == {created}
      modifies this`world, this`history, this`faults, this`phoneId, this`ownershipJournal, this`creationAmbiguous
      ensures Valid() && old(history) <= history
      ensures r.Ok? ==> phoneId == Some(r.value) && !creationAmbiguous && ownershipJournal
      ensures old(faults) <= faults && (faults == old(faults) ==> r == Ok(created)) && world.phones.Keys == {created}
    {
      phoneId := Some(created);
      ownershipJournal := true;
      var wroteOwnership := Put(OwnershipJournal, i);
      if !wroteOwnership {
        return Err(Rejected);
      }
      creationAmbiguous := false;
      var active: bool := *;
      if !active {
        faults := faults + 1;
        return Err(Rejected);
      }
      return Ok(created);
    }

    /** The states from which one undisturbed cleanup finishes: the endpoint is known or can be found, or its
        POST was never announced. */
    predicate Settles()
      reads this
    {
      if intent.Some? then phoneId.Some? || world.phones != map[] || (!creationAmbiguous && !requestJournal)
      else phoneId.None? && !ownershipJournal && !intentJournal && !requestJournal
    }

    /** The request is on record and no endpoint exists or may still come to exist, or something is on record
        and the intent it belongs to is not known. */
    predicate Stuck()
      reads this
    {
      if intent.Some? then phoneId.None? && (creationAmbiguous || requestJournal) && world.phones == map[]
          && world.pending == {}
      else phoneId.Some? || ownershipJournal || intentJournal || requestJournal
    }

    /** `cleanup_sip_transients`: the endpoint, its journals, then the SIP authentication; `vapi` says that a client
        is available and `ok` that no error was reported. An undisturbed cleanup succeeds exactly when `Settles`,
        and otherwise leaves a stuck state, which no later cleanup leaves. */
    method CleanupSip(vapi: bool) returns (ok: bool)
      requires Valid()
      modifies this
      ensures Valid() && old(history) <= history && posts == old(posts)
      ensures ok ==> Empty(world) && phoneId.None? && intent.None?
                     && !intentJournal && !requestJournal && !ownershipJournal && !sipAuthentication
                         && !creationAmbiguous
      ensures faults == old(faults) ==> !sipAuthentication
      ensures old(faults) <= faults
      ensures faults == old(faults) && vapi && old(world).pending == {} ==>
                (ok <==> old(Settles()))
                && (!ok ==> Stuck())
      ensures old(Stuck()) ==> !ok && Stuck()
    {
      hide AllSafe;
      var absent := phoneId.None? && intent.None? && !ownershipJournal && !intentJournal && !requestJournal;
      var clean := true;
      if vapi && intent.Some? {
        absent := ReconcileAndDelete();
        clean := absent;
      } else if phoneId.Some? || intent.Some? || ownershipJournal || intentJournal || requestJournal {
        clean := false;
      }
      ok := clean;
      if absent {
        var dropped := DropJournals();
        ok := clean && dropped;
      }
      if sipAuthentication {
        var removed := RemoveAuthentication();
        ok := ok && removed;
      }
    }

    /** The removal of the stored authentication. */
    method RemoveAuthentication() returns (ok: bool)
      modifies this`faults, this`sipAuthentication
      ensures sipAuthentication ==> !ok
      ensures faults == (if ok then old(faults) else old(faults) + 1) && (ok ==> !sipAuthentication)
    {
      ok := *;
      if ok {
        sipAuthentication := false;
      } else {
        faults := faults + 1;
      }
    }

    /** `prove_temporary_vapi_phone_authentication`: refused while an earlier authentication is still stored;
        its own is tracked before it is stored. */
    method ProveAuthentication() returns (ok: bool)
      modifies this`faults, this`sipAuthentication
      ensures old(sipAuthentication) ==> !ok
      ensures ok ==> sipAuthentication
      ensures old(faults) <= faults && (faults == old(faults) ==> (ok <==> !old(sipAuthentication)))
    {
      if sipAuthentication {
        return false;
      }
      sipAuthentication := true;
      ok := *;
      faults := faults + if ok then 0 else 1;
    }

    /** The journals go last, ownership first and intent at the very end. */
    method DropJournals() returns (ok: bool)
      requires Valid() && Empty(world) && phoneId.None? && !creationAmbiguous
      modifies this`world, this`history, this`faults, this`intent, this`intentJournal, this`requestJournal,
          this`ownershipJournal
      ensures Valid() && old(history) <= history && Empty(world)
      ensures ok ==> intent.None? && !intentJournal && !requestJournal && !ownershipJournal
      ensures old(faults) <= faults && (faults == old(faults) ==> ok)
    {
      hide AllSafe, Safe;
      if ownershipJournal {
        var removed := Remove(OwnershipJournal);
        ownershipJournal := !removed;
      }
      if !ownershipJournal && requestJournal {
        var removed := Remove(RequestJournal);
        requestJournal := !removed;
      }
      if !ownershipJournal && !requestJournal && intentJournal {
        var removed := Remove(IntentJournal);
        intentJournal := !removed;
      }
      ok := !ownershipJournal && !requestJournal && !intentJournal;
      if ok {
        intent := None;
      }
    }

    /** The guarded block of `cleanup_sip_transients`: with no identifier, a POST that may have been sent is
        not given up on; with one, the endpoint is deleted and its absence proved. */
    method ReconcileAndDelete() returns (absent: bool)
      requires Valid() && intent.Some?
      modifies this`world, this`history, this`faults, this`phoneId, this`ownershipJournal, this`creationAmbiguous
      ensures Valid() && old(history) <= history
      ensures absent ==> Empty(world) && phoneId.None? && !creationAmbiguous
      ensures old(faults) <= faults
      ensures faults == old(faults) && old(world).pending == {} ==>
                (absent <==> old(Settles()))
                && (!absent ==> Stuck())
      ensures old(Stuck()) ==> !absent && Stuck()
    {
      hide AllSafe;
      if phoneId.None? {
        var found := FindPhone(intent.value);
        if found.Err? {
          return false;
        }
        if found.value.Some? {
          phoneId := found.value;
          ownershipJournal := true;
          var wrote := Put(OwnershipJournal, intent.value);
          if !wrote {
            return false;
          }
        } else if creationAmbiguous || requestJournal {
          return false;
        }
      }
      if phoneId.Some? {
        var deleted := DeletePhone();
        if !deleted {
          return false;
        }
      }
      creationAmbiguous := false;
      return true;
    }

    /** `delete_phone` of the tracked endpoint, whose absence is proved before it returns. */
    method DeletePhone() returns (ok: bool)
      requires Valid() && phoneId.Some?
      modifies this`world, this`history, this`faults, this`phoneId
      ensures Valid() && old(history) <= history
      ensures ok ==> Empty(world) && phoneId.None?
      ensures old(faults) <= faults && (faults == old(faults) ==> ok)
    {
      hide AllSafe;
      var deleted: bool, answered: bool := *, *;
      if deleted {
        Become(world.(phones := world.phones - {phoneId.value}));
      }
      if !deleted || !answered {
        faults := faults + 1;
        return false;
      }
      phoneId := None;
      return true;
    }

    /** `provision_ready_temporary_vapi_phone`: up to three endpoints one after the other, never two at once
        (`Valid` keeps every state of the run `Safe`), each behind at most one POST. */
    method ProvisionReady(assistantId: string) returns (r: Result<string, Failure>)
      requires Valid()
      modifies this
      ensures Valid() && old(history) <= history
      ensures posts <= old(posts) + 3
      ensures r.Ok? ==> phoneId == Some(r.value)
      ensures faults == old(faults) && old(Clear() && !sipAuthentication) ==> r.Ok? && posts == old(posts) + 1
    {
      for attempt := 1 to 4
        invariant Valid() && old(history) <= history && old(faults) <= faults
        invariant attempt > 1 ==> faults > old(faults) || old(sipAuthentication)
        invariant attempt == 1 ==> phoneId == old(phoneId) && old(Clear()) == Clear() && posts == old(posts)
        invariant attempt == 1 ==> sipAuthentication == old(sipAuthentication)
        invariant posts <= old(posts) + attempt - 1
        invariant attempt > 1 ==> Empty(world)
      {
        var phone :- Provision(assistantId);
        var ready := ProveAuthentication();
        if ready {
          return Ok(phone);
        }
        var clean := CleanupSip(true);
        if !clean || attempt == 3 {
          return Err(Rejected);
        }
      }
      return Err(Rejected);
    }

    /** `phone_recovery_required` in `cleanup` is the negation of this. */
    predicate Clear()
      reads this
    {
      && phoneId.None? && intent.None? && !creationAmbiguous
      && !ownershipJournal && !intentJournal && !requestJournal
    }

    /** The final versioned-prefix purge: some or all journals go. */
    method Purge() returns (ok: bool)
      requires Valid() && Clear()
      modifies this`world, this`history, this`faults
      ensures Valid() && old(history) <= history && Empty(world)
      ensures ok ==> world.journals == map[]
      ensures old(faults) <= faults && (faults == old(faults) ==> ok)
    {
      var left: set<Journal> := *;
      ok := *;
      faults := faults + if ok then 0 else 1;
      Become(world.(journals := if ok then map[] else map j | j in world.journals && j in left :: world.journals[j]));
    }
  }
}
