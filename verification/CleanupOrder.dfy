/** The ordering part of `cleanup` (qualification/controller.py): what has to be settled before the purge
    that removes the ownership journals. */
module CleanupOrder {
  import PhoneOwnership
  import DirectOwnership

  /** Everything else `cleanup` asks the environment, one answer each. */
  datatype Answers = Answers(
    vapi: bool,            // a Vapi verifier is available
    outputs: bool,         // the stack outputs name the direct endpoint and credential
    acmSettled: bool,      // ACM ownership discovery is complete and its journal tracking is valid
    resilienceClean: bool, // no provisioning-resilience cleanup is outstanding
    inventory: bool,       // the owned-resource inventory was sealed
    verifier: bool,        // the second verifier initialisation worked
    bucket: bool,          // the artifact bucket was identified
    stackIdentity: bool,   // the stack identity was recovered
    acmAbsent: bool)       // no ACM validation record is left

  /** Nothing beside the two protocols stands in the way of the purge. */
  predicate AllGood(a: Answers) {
    a.vapi && a.outputs && a.acmSettled && a.resilienceClean && a.inventory && a.verifier && a.bucket
        && a.stackIdentity && a.acmAbsent
  }

  class Cleanup {
    const phone: PhoneOwnership.Controller
    const direct: DirectOwnership.Controller

    constructor (phone: PhoneOwnership.Controller, direct: DirectOwnership.Controller)
      ensures this.phone == phone && this.direct == direct
    {
      this.phone, this.direct := phone, direct;
    }

    /** `cleanup` up to the purge. The journals of the temporary endpoint and of the direct resources are
        purged only when nothing they account for is live or may still come alive, and no other ownership
        recovery is outstanding; whatever happens, both protocols stay `Safe` at every state. Undisturbed, it does
        purge if and only if both protocols were in a state from which a cleanup finishes. */
    method Run(answers: Answers) returns (purged: bool, attempted: bool)
      requires phone.Valid() && direct.Valid()
      modifies phone, direct
      ensures phone.Valid() && direct.Valid()
      ensures old(phone.history) <= phone.history && old(direct.history) <= direct.history
      ensures attempted ==>
                && phone.Clear() && PhoneOwnership.Empty(phone.world)
                && direct.Clear() && DirectOwnership.NoTool(direct.world) && DirectOwnership.NoAssistant(direct.world)
                && direct.world.binding.Unbound?
                && answers.acmSettled && answers.resilienceClean && answers.acmAbsent
      ensures purged ==> attempted && phone.world.journals == map[] && direct.world.journals == {}
      ensures !phone.Clear() || !direct.Clear() ==> !attempted
      ensures phone.faults == old(phone.faults) && direct.faults == old(direct.faults) && AllGood(answers)
              && old(phone.world).pending == {} && old(direct.NothingPending()) ==>
                && (attempted <==> old(phone.Settles()) && old(direct.Settles()))
                && (purged <==> attempted)
    {
      CleanBoth(answers);
      var recovery := !phone.Clear() || !direct.Clear() || !answers.acmSettled || !answers.resilienceClean;
      if !recovery && !answers.inventory {
        recovery := true;
      }
      if !recovery && !answers.verifier {
        recovery := true;
      }
      if !answers.bucket {
        recovery := true;
      }
      if !recovery && !answers.stackIdentity {
        recovery := true;
      }
      attempted := answers.bucket && !recovery && answers.acmAbsent;
      purged := false;
      if attempted {
        purged := PurgeBoth();
      }
    }

    /** The two cleanups: undisturbed, they leave nothing to recover exactly if both could finish. */
    method CleanBoth(answers: Answers)
      requires phone.Valid() && direct.Valid()
      modifies phone, direct
      ensures phone.Valid() && direct.Valid()
      ensures old(phone.history) <= phone.history && old(direct.history) <= direct.history
      ensures old(phone.faults) <= phone.faults && old(direct.faults) <= direct.faults
      ensures phone.faults == old(phone.faults) && direct.faults == old(direct.faults) && answers.vapi
              && answers.outputs
              && old(phone.world).pending == {} && old(direct.NothingPending()) ==>
                (phone.Clear() && direct.Clear() <==> old(phone.Settles()) && old(direct.Settles()))
    {
      hide PhoneOwnership.Controller.Valid, DirectOwnership.Controller.Valid;
      var phoneClean := phone.CleanupSip(answers.vapi);
      var phoneAbsent := phone.phoneId.None? && phone.intent.None? && !phone.creationAmbiguous;
      var directClean := direct.Cleanup(answers.vapi, answers.outputs, phoneAbsent);
      if direct.Stuck() {
        direct.StuckIsNotClear();
      }
    }

    method PurgeBoth() returns (purged: bool)
      requires phone.Valid() && direct.Valid() && phone.Clear() && direct.Clear()
      modifies phone, direct
      ensures phone.Valid() && direct.Valid() && phone.Clear() && direct.Clear()
      ensures old(phone.history) <= phone.history && old(direct.history) <= direct.history
      ensures old(phone.faults) <= phone.faults && old(direct.faults) <= direct.faults
      ensures phone.faults == old(phone.faults) && direct.faults == old(direct.faults) ==> purged
      ensures PhoneOwnership.Empty(phone.world) && direct.world.binding.Unbound?
      ensures DirectOwnership.NoTool(direct.world) && DirectOwnership.NoAssistant(direct.world)
      ensures purged ==> phone.world.journals == map[] && direct.world.journals == {}
    {
      hide PhoneOwnership.Controller.Valid;
      var phoneGone := phone.Purge();
      var directGone := direct.Purge();
      purged := phoneGone && directGone;
    }
  }
}
