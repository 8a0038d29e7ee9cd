/** The Lambda's secret cache (lambda/common/aws_runtime.py: `load_secret`). The secret may be rotated at any
    time; the ghost log remembers what the store answered and when. */
module SecretCache {
  import opened Wrappers

  const TTL := 300

  /** The store held `value` for `arn` at time `at`. */
  datatype Reading = Reading(arn: string, value: string, at: int)

  datatype Entry = Entry(value: string, stamp: int)

  datatype SecretError = ConfigurationInvalid | StoreFailed

  /** The store was seen to hold this value no earlier than `since`. */
  ghost predicate HeldSince(log: seq<Reading>, arn: string, value: string, since: int) {
    exists k :: 0 <= k < |log| && log[k].arn == arn && log[k].value == value && log[k].at >= since
  }

  class Runtime {
    var clock: int
    var cache: map<string, Entry>
    ghost var log: seq<Reading>

    /** Every cached value was read after its stamp was taken, and no stamp is in the future. */
    ghost predicate Valid()
      reads this
    {
      forall arn :: arn in cache ==>
        cache[arn].stamp <= clock && HeldSince(log, arn, cache[arn].value, cache[arn].stamp)
    }

    constructor (now: int)
      ensures Valid() && clock == now && cache == map[] && log == []
    {
      clock := now;
      cache := map[];
      log := [];
    }

    /** `load_secret`: a cached load is at most five minutes behind the store; an uncached one is current, and
        neither uses nor fills the cache. */
    method Load(arn: string, useCache: bool, minimum: int, isArn: string -> bool)
      returns (r: Result<string, SecretError>)
      requires Valid()
      modifies this
      ensures Valid() && clock >= old(clock) && old(log) <= log
      ensures r.Ok? ==> |r.value| >= minimum && 1 <= minimum <= 65536 && isArn(arn)
      ensures r.Ok? ==> HeldSince(log, arn, r.value, if useCache then old(clock) - TTL + 1 else old(clock))
      ensures !useCache || r.Err? ==> cache == old(cache)
      ensures useCache && r.Ok? && log != old(log) ==> cache == old(cache)[arn := Entry(r.value, old(clock))]
    {
      if !isArn(arn) || !(1 <= minimum <= 65536) {
        return Err(ConfigurationInvalid);
      }
      var current := clock;
      if useCache && arn in cache && current - cache[arn].stamp < TTL && |cache[arn].value| >= minimum {
        Weaken(log, arn, cache[arn].value, cache[arn].stamp, current - TTL + 1);
        return Ok(cache[arn].value);
      }
      ghost var before := log;
      var value := Fetch(arn);
      if value.None? || |value.value| < minimum {
        return Err(if value.None? then StoreFailed else ConfigurationInvalid);
      }
      if useCache {
        cache := cache[arn := Entry(value.value, current)];
      }
      Weaken(log, arn, value.value, current, if useCache then current - TTL + 1 else current);
      return Ok(value.value);
    }

    method Fetch(arn: string) returns (value: Option<string>)
      requires Valid()
      modifies this`clock, this`log
      ensures Valid() && clock >= old(clock) && old(log) <= log
      ensures value.Some? ==> HeldSince(log, arn, value.value, old(clock))
      ensures log == if value.Some? then old(log) + [Reading(arn, value.value, clock)] else old(log)
    {
      var passed: int, failed: bool, answer: string := *, *, *;
      if passed > 0 {
        clock := clock + passed;
      }
      if failed {
        return None;
      }
      ghost var before := log;
      log := log + [Reading(arn, answer, clock)];
      forall a | a in cache ensures HeldSince(log, a, cache[a].value, cache[a].stamp) {
        Longer(before, log, a, cache[a].value, cache[a].stamp);
      }
      assert log[|log| - 1] == Reading(arn, answer, clock);
      return Some(answer);
    }
  }

  lemma Weaken(log: seq<Reading>, arn: string, value: string, since: int, earlier: int)
    requires HeldSince(log, arn, value, since) && earlier <= since
    ensures HeldSince(log, arn, value, earlier)
  {
  }

  lemma Longer(log: seq<Reading>, later: seq<Reading>, arn: string, value: string, since: int)
    requires HeldSince(log, arn, value, since) && log <= later
    ensures HeldSince(later, arn, value, since)
  {
    var k :| 0 <= k < |log| && log[k].arn == arn && log[k].value == value && log[k].at >= since;
    assert later[k] == log[k];
  }
}
