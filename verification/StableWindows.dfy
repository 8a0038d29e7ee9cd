/** Loops that conclude only after a stable window of observations (qualification/controller.py:
    `_delete_owned_and_prove_stable_absence`, `wait_for_vapi_phone_active`; qualification/release_safeguards.py:
    `stable_zero_resource_proof`; release/verify_qualification_relations.py: the checks on its result).

    Time is an integer count of milliseconds that never goes back; a request takes at least one, and a sleep at
    least what it was asked for. What is observed is up to the environment. */
module StableWindows {
  import opened Wrappers

  // Deletion until absence is stable

  datatype Object = Object(id: string, owned: bool)

  datatype Request = Get(id: string, found: Option<Object>, at: int) | Delete(target: string)

  datatype WindowError =
    | BoundInvalid | NotOwned | TimedOut | RequestFailed | IdentityChanged | Terminal | SleepInvalid
    | NotSpanning | NotConverged

  /** Since when the object has been absent in every read, with nothing but reads in between. */
  function AbsentSince(log: seq<Request>): Option<int> {
    if log == [] then None
    else
      var last := log[|log| - 1];
      if last.Get? && last.found.None? then
        var before := AbsentSince(log[..|log| - 1]);
        if before.Some? then before else Some(last.at)
      else None
  }

  /** Consecutive absent reads at the end of the log that cover at least `span`. */
  ghost predicate AbsentFor(log: seq<Request>, span: int) {
    exists i :: 0 <= i < |log|
      && (forall k :: i <= k < |log| ==> log[k].Get? && log[k].found.None?)
      && log[|log| - 1].at - log[i].at >= span
  }

  lemma {:induction false} SinceIsFirst(log: seq<Request>) returns (i: nat)
    requires AbsentSince(log).Some?
    ensures i < |log| && log[i].Get? && log[i].at == AbsentSince(log).value
    ensures forall k :: i <= k < |log| ==> log[k].Get? && log[k].found.None?
  {
    var init, last := log[..|log| - 1], log[|log| - 1];
    if AbsentSince(init).Some? {
      i := SinceIsFirst(init);
      assert forall k :: i <= k < |init| ==> log[k] == init[k];
    } else {
      i := |log| - 1;
    }
  }

  /** A DELETE goes out only for the exact object that the request just before it read as owned. */
  predicate DeletesOwned(log: seq<Request>, id: string) {
    forall k :: 0 <= k < |log| && log[k].Delete? ==>
      && log[k].target == id && k > 0 && log[k - 1].Get? && log[k - 1].id == id
      && log[k - 1].found == Some(Object(id, true))
  }

  lemma ReadMore(log: seq<Request>, id: string, found: Option<Object>, at: int)
    requires DeletesOwned(log, id)
    ensures DeletesOwned(log + [Get(id, found, at)], id)
    ensures AbsentSince(log + [Get(id, found, at)])
         == if found.Some? then None else if AbsentSince(log).Some? then AbsentSince(log) else Some(at)
  {
    var all := log + [Get(id, found, at)];
    assert all[..|all| - 1] == log;
    forall k | 0 <= k < |all| && all[k].Delete? ensures all[k].target == id && k > 0 && all[k - 1] == log[k - 1] {
      assert all[k] == log[k];
    }
  }

  lemma DeleteMore(log: seq<Request>, id: string)
    requires DeletesOwned(log, id) && log != [] && log[|log| - 1].Get? && log[|log| - 1].id == id
    requires log[|log| - 1].found == Some(Object(id, true))
    ensures DeletesOwned(log + [Delete(id)], id) && AbsentSince(log + [Delete(id)]) == None
  {
    var all := log + [Delete(id)];
    forall k | 0 <= k < |log| && all[k].Delete? ensures all[k].target == id && k > 0 && all[k - 1] == log[k - 1] {
      assert all[k] == log[k];
    }
  }

  /** The absent reads at the end of the log, from the first of them on, cover the span. */
  predicate Absent(log: seq<Request>, span: int) {
    && log != [] && log[|log| - 1].Get? && AbsentSince(log).Some?
    && log[|log| - 1].at - AbsentSince(log).value >= span
  }

  lemma LongEnough(log: seq<Request>, span: int)
    requires Absent(log, span)
    ensures AbsentFor(log, span)
  {
    var i := SinceIsFirst(log);
  }

  class Vapi {
    var clock: int
    ghost var log: seq<Request>
    /** How many requests have failed. */
    ghost var faults: nat

    method Read(id: string) returns (r: Result<Option<Object>, WindowError>)
      modifies this
      ensures clock > old(clock)
      ensures r.Ok? ==> log == old(log) + [Get(id, r.value, clock)] && faults == old(faults)
      ensures r.Err? ==> log == old(log) && r.error == RequestFailed && faults == old(faults) + 1
    {
      Pass(1);
      var failed: bool, found: Option<Object> := *, *;
      if failed {
        faults := faults + 1;
        return Err(RequestFailed);
      }
      log := log + [Get(id, found, clock)];
      return Ok(found);
    }

    /** A deletion that is lost and one that is done look the same here. */
    method Remove(id: string) returns (ok: bool)
      modifies this
      ensures clock > old(clock) && log == old(log) + [Delete(id)] && faults == old(faults) + if ok then 0 else 1
    {
      Pass(1);
      log := log + [Delete(id)];
      ok := *;
      faults := faults + if ok then 0 else 1;
    }

    method Pass(least: int)
      requires least >= 0
      modifies this`clock
      ensures clock >= old(clock) + least
    {
      var more: int := *;
      clock := clock + least + if more > 0 then more else 0;
    }
  }

  /** `_delete_owned_and_prove_stable_absence`; `log` holds the requests of this call. It returns exactly when the
      absent reads at its end cover the window. */
  method DeleteOwned(vapi: Vapi, id: string, timeout: int, poll: int, stable: int)
    returns (r: Result<bool, WindowError>, ghost log: seq<Request>)
    modifies vapi
    ensures vapi.log == old(vapi.log) + log
    ensures r.Ok? <==> timeout > 0 && poll >= 0 && 0 <= stable < timeout && Absent(log, stable)
    ensures r.Ok? ==> AbsentFor(log, stable)
    ensures DeletesOwned(log, id)
    ensures r == Err(TimedOut) ==> vapi.clock >= old(vapi.clock) + timeout
    ensures r == Err(NotOwned) ==> log != [] && var last := log[|log| - 1];
              last.Get? && last.found.Some? && (last.found.value.id != id || !last.found.value.owned)
    ensures r == Err(BoundInvalid) <==> timeout <= 0 || poll < 0 || stable < 0 || stable >= timeout
    ensures r == Err(RequestFailed) <==> vapi.faults > old(vapi.faults)
    ensures r.Err? ==> r.error in {BoundInvalid, RequestFailed, NotOwned, TimedOut}
  {
    hide AbsentSince, DeletesOwned, AbsentFor;
    log := [];
    NothingYet(id);
    if timeout <= 0 || poll < 0 || stable < 0 || stable >= timeout {
      return Err(BoundInvalid), log;
    }
    var deadline := vapi.clock + timeout;
    var absentSince: Option<int> := None;
    while true
      invariant vapi.log == old(vapi.log) + log && vapi.faults == old(vapi.faults)
      invariant absentSince == AbsentSince(log) && DeletesOwned(log, id) && !Absent(log, stable)
      decreases deadline - vapi.clock
    {
      var current := vapi.Read(id);
      if current.Err? {
        return Err(RequestFailed), log;
      }
      ReadMore(log, id, current.value, vapi.clock);
      log := log + [Get(id, current.value, vapi.clock)];
      if current.value.None? {
        var now := vapi.clock;
        if absentSince.None? {
          absentSince := Some(now);
        }
        if now - absentSince.value >= stable {
          LongEnough(log, stable);
          return Ok(true), log;
        }
      } else {
        absentSince := None;
        if current.value.value.id != id || !current.value.value.owned {
          return Err(NotOwned), log;
        }
        DeleteMore(log, id);
        var sent := vapi.Remove(id);
        log := log + [Delete(id)];
        if !sent {
          return Err(RequestFailed), log;
        }
      }
      var remaining := deadline - vapi.clock;
      if remaining <= 0 {
        return Err(TimedOut), log;
      }
      vapi.Pass(if poll < remaining then poll else remaining);
    }
  }

  lemma NothingYet(id: string)
    ensures AbsentSince([]) == None && DeletesOwned([], id)
  {
  }

  // Activation

  /** What one read of the phone showed: nothing, the active phone, a phone still being set up, one with another
      identity, or one in a final status. */
  datatype Probe = Missing(at: int) | Active(at: int) | Preparing(at: int) | Foreign(at: int) | Ended(at: int)

  predicate Counts(p: Probe) {
    p.Missing? || p.Active?
  }

  /** Since when the loop counts the phone as active. A missing read does not interrupt the count. */
  function ActiveSince(log: seq<Probe>): Option<int> {
    if log == [] then None
    else
      var before := ActiveSince(log[..|log| - 1]);
      match log[|log| - 1]
      case Missing(_) => before
      case Active(at) => if before.Some? then before else Some(at)
      case _ => None
  }

  /** The read with which that count began. */
  function StartOf(log: seq<Probe>): Option<nat> {
    if log == [] then None
    else
      var before := StartOf(log[..|log| - 1]);
      match log[|log| - 1]
      case Missing(_) => before
      case Active(_) => if before.Some? then before else Some(|log| - 1)
      case _ => None
  }

  /** Since when every read showed the phone active. */
  function SteadySince(log: seq<Probe>): Option<int> {
    if log == [] || !log[|log| - 1].Active? then None
    else
      var before := SteadySince(log[..|log| - 1]);
      if before.Some? then before else Some(log[|log| - 1].at)
  }

  /** The count, up to an active read, covers the span. */
  predicate Settled(log: seq<Probe>, span: int) {
    && log != [] && log[|log| - 1].Active? && ActiveSince(log).Some?
    && log[|log| - 1].at - ActiveSince(log).value >= span
  }

  /** A window that starts and ends active and in which every read was active or missing. */
  ghost predicate ActiveFor(log: seq<Probe>, span: int) {
    exists i :: 0 <= i < |log| && log[i].Active? && log[|log| - 1].Active?
      && (forall k :: i <= k < |log| ==> Counts(log[k])) && log[|log| - 1].at - log[i].at >= span
  }

  /** A continuous interval: every read in it was active. */
  ghost predicate SteadyFor(log: seq<Probe>, span: int) {
    exists i :: 0 <= i < |log| && AllActive(log, i) && log[|log| - 1].at - log[i].at >= span
  }

  predicate AllActive(log: seq<Probe>, from: nat) {
    forall k :: from <= k < |log| ==> log[k].Active?
  }

  predicate InOrder(log: seq<Probe>) {
    forall i, j :: 0 <= i < j < |log| ==> log[i].at < log[j].at
  }

  /** The count began with an active read, and every active read before it was followed by one that ended its
      count. */
  lemma {:induction false} StartIsFirst(log: seq<Probe>)
    ensures StartOf(log).Some? <==> ActiveSince(log).Some?
    ensures StartOf(log).Some? ==>
              var i := StartOf(log).value;
              && i < |log| && log[i] == Active(ActiveSince(log).value)
              && (forall k :: i <= k < |log| ==> Counts(log[k]))
              && (forall j :: 0 <= j < i && log[j].Active? ==> exists k :: j < k < i && !Counts(log[k]))
    ensures StartOf(log).None? ==>
              forall j :: 0 <= j < |log| && log[j].Active? ==> exists k :: j < k < |log| && !Counts(log[k])
  {
    if log != [] {
      var init := log[..|log| - 1];
      StartIsFirst(init);
      assert forall k :: 0 <= k < |init| ==> log[k] == init[k];
      if StartOf(init).None? {
        forall j | 0 <= j < |init| && log[j].Active? ensures exists k :: j < k < |init| && !Counts(log[k]) {
          assert init[j].Active?;
          var k :| j < k < |init| && !Counts(init[k]);
          assert !Counts(log[k]);
        }
      }
    }
  }

  lemma {:induction false} SteadyIsFirst(log: seq<Probe>) returns (i: nat)
    requires SteadySince(log).Some?
    ensures i < |log| && AllActive(log, i) && log[i].at == SteadySince(log).value && (i > 0 ==> !log[i - 1].Active?)
  {
    var init := log[..|log| - 1];
    if SteadySince(init).Some? {
      i := SteadyIsFirst(init);
      assert forall k :: 0 <= k < |init| ==> log[k] == init[k];
    } else {
      i := |log| - 1;
      assert init != [] ==> init[|init| - 1] == log[i - 1];
      SteadyWhenActive(init);
    }
  }

  lemma SteadyWhenActive(log: seq<Probe>)
    ensures SteadySince(log).Some? <==> log != [] && log[|log| - 1].Active?
  {
  }

  /** When the log ends with a continuous interval of the span: exactly when the active reads since the last other
      one cover it. */
  lemma SteadyForIff(log: seq<Probe>, span: int)
    requires InOrder(log) && log != []
    ensures SteadyFor(log, span) <==> SteadySince(log).Some? && log[|log| - 1].at - SteadySince(log).value >= span
  {
    SteadyWhenActive(log);
    hide SteadySince;
    if log[|log| - 1].Active? {
      var i := SteadyIsFirst(log);
      if SteadyFor(log, span) {
        var j :| 0 <= j < |log| && AllActive(log, j) && log[|log| - 1].at - log[j].at >= span;
        assert j >= i;
        assert i < j ==> log[i].at < log[j].at;
      }
    }
  }

  /** The window the wait measured is one continuous interval if and only if no read since its start was missing;
      otherwise the continuous part of it starts later. */
  lemma UnbrokenIff(log: seq<Probe>, span: int)
    requires InOrder(log) && Settled(log, span)
    ensures StartOf(log).Some? && StartOf(log).value < |log| && SteadySince(log).Some?
    ensures ActiveSince(log).value <= SteadySince(log).value
    ensures SteadySince(log) == ActiveSince(log) <==> forall k :: StartOf(log).value <= k < |log| ==> !log[k].Missing?
    ensures SteadySince(log) == ActiveSince(log) ==> SteadyFor(log, span)
  {
    StartIsFirst(log);
    SteadyWhenActive(log);
    SteadyForIff(log, span);
    var s := StartOf(log).value;
    var i := SteadyIsFirst(log);
    hide StartOf, ActiveSince, SteadySince, SteadyFor;
    assert s <= i;
    assert s < i ==> log[s].at < log[i].at && Counts(log[i - 1]);
  }

  /** So a wait that returns need not have seen a continuous interval: the phone may have been missing at any
      number of reads after the first active one. The wait goes on through all of them and returns with the next
      active one, with no continuous interval of the span behind it. */
  lemma MissingDoesNotReset(start: int, missing: seq<int>, end: int, span: int)
    requires 0 < span <= end - start && missing != []
    requires forall k :: 0 <= k < |missing| ==> start < missing[k] < end
    requires forall j, k :: 0 <= j < k < |missing| ==> missing[j] < missing[k]
    ensures
      var log := Interrupted(start, missing, end);
      && InOrder(log) && Settled(log, span) && Unsettled(log[..|log| - 1], span)
      && !SteadyFor(log, span)
  {
    var gaps := Gaps(missing);
    var log := Interrupted(start, missing, end);
    var init := [Active(start)] + gaps;
    assert log[..|log| - 1] == init;
    GapsSettleNothing(start, gaps, span);
    assert init[..|init|] == init;
    assert log[|log| - 2] == Missing(missing[|missing| - 1]);
    SteadyWhenActive(init);
    SteadyForIff(log, span);
  }

  function Gaps(missing: seq<int>): seq<Probe> {
    seq(|missing|, i requires 0 <= i < |missing| => Missing(missing[i]))
  }

  function Interrupted(start: int, missing: seq<int>, end: int): seq<Probe> {
    [Active(start)] + Gaps(missing) + [Active(end)]
  }

  /** At no read so far was the wait over. */
  predicate Unsettled(log: seq<Probe>, span: int) {
    forall k :: 0 <= k <= |log| ==> !Settled(log[..k], span)
  }

  lemma UnsettledMore(log: seq<Probe>, p: Probe, span: int)
    requires Unsettled(log, span) && !Settled(log + [p], span)
    ensures Unsettled(log + [p], span)
  {
    hide Settled;
    var all := log + [p];
    forall k | 0 <= k <= |all| ensures !Settled(all[..k], span) {
      if k <= |log| {
        assert all[..k] == log[..k];
      } else {
        assert all[..k] == all;
      }
    }
  }

  lemma {:induction false} GapsSettleNothing(start: int, gaps: seq<Probe>, span: int)
    requires span > 0 && forall k :: 0 <= k < |gaps| ==> gaps[k].Missing?
    ensures ActiveSince([Active(start)] + gaps) == Some(start)
    ensures Unsettled([Active(start)] + gaps, span)
  {
    if gaps == [] {
      var log := [Active(start)];
      assert log + gaps == log && log[..0] == [] && log[..1] == log;
    } else {
      var init, last := gaps[..|gaps| - 1], gaps[|gaps| - 1];
      GapsSettleNothing(start, init, span);
      var before := [Active(start)] + init;
      assert [Active(start)] + gaps == before + [last];
      ActiveMore(before, last);
      UnsettledMore(before, last, span);
    }
  }

  /** The phone's reported status: active, one of pending, provisioning and creating, or any other. */
  datatype Status = Up | SettingUp | Final

  lemma NoneActive(span: int)
    ensures ActiveSince([]) == None && Unsettled([], span) && InOrder([])
  {
  }

  lemma ActiveMore(log: seq<Probe>, p: Probe)
    ensures ActiveSince(log + [p])
         == match p
            case Missing(_) => ActiveSince(log)
            case Active(at) => if ActiveSince(log).Some? then ActiveSince(log) else Some(at)
            case _ => None
  {
    assert (log + [p])[..|log|] == log;
  }

  lemma ActiveEnough(log: seq<Probe>, span: int)
    requires Settled(log, span)
    ensures ActiveFor(log, span)
  {
    StartIsFirst(log);
  }

  lemma OrderMore(log: seq<Probe>, p: Probe, clock: int)
    requires InOrder(log) && (log != [] ==> log[|log| - 1].at <= clock) && clock < p.at
    ensures InOrder(log + [p])
  {
    assert forall i :: 0 <= i < |log| - 1 ==> log[i].at < log[|log| - 1].at;
  }

  /** `wait_for_vapi_phone_active`; the log holds what its reads showed, in order. It returns exactly at the first
      read with which the count covers the window. The polling interval is not checked: a
      negative one is the sleep's error, after the first read that does not settle the wait. */
  method WaitActive(vapi: Vapi, timeout: int, poll: int, stable: int)
    returns (r: Result<bool, WindowError>, ghost log: seq<Probe>)
    modifies vapi
    ensures r.Ok? <==> 0 <= stable < timeout && Settled(log, stable)
    ensures r.Ok? ==> Unsettled(log[..|log| - 1], stable) && ActiveFor(log, stable)
    ensures r.Err? && 0 <= stable < timeout ==> Unsettled(log, stable)
    ensures InOrder(log)
    ensures r == Err(TimedOut) ==> vapi.clock >= old(vapi.clock) + timeout
    ensures r == Err(BoundInvalid) <==> stable < 0 || stable >= timeout
    ensures r == Err(IdentityChanged) ==> log != [] && log[|log| - 1].Foreign?
    ensures r == Err(Terminal) ==> log != [] && log[|log| - 1].Ended?
    ensures r == Err(RequestFailed) <==> vapi.faults > old(vapi.faults)
    ensures r == Err(SleepInvalid) ==> poll < 0
    ensures poll < 0 ==> |log| <= 1
    ensures r.Err? ==> r.error in {BoundInvalid, TimedOut, IdentityChanged, Terminal, RequestFailed, SleepInvalid}
  {
    hide ActiveSince, ActiveFor, Unsettled, InOrder;
    log := [];
    NoneActive(stable);
    if stable < 0 || stable >= timeout {
      return Err(BoundInvalid), log;
    }
    var deadline := vapi.clock + timeout;
    var activeSince: Option<int> := None;
    while true
      invariant activeSince == ActiveSince(log) && vapi.faults == old(vapi.faults) && (poll < 0 ==> log == [])
      invariant Unsettled(log, stable) && !Settled(log, stable)
      invariant InOrder(log) && (log != [] ==> log[|log| - 1].at <= vapi.clock)
      decreases deadline - vapi.clock
    {
      ghost var before, earlier := log, vapi.clock;
      vapi.Pass(1);
      var failed: bool, found: bool, exact: bool, status: Status := *, *, *, *;
      if failed {
        vapi.faults := vapi.faults + 1;
        return Err(RequestFailed), log;
      }
      ghost var p := Shown(found, exact, status, vapi.clock);
      ActiveMore(log, p);
      OrderMore(log, p, earlier);
      log := log + [p];
      assert log[..|log| - 1] == before;
      if !Settled(log, stable) {
        UnsettledMore(before, p, stable);
      }
      if found {
        if !exact {
          return Err(IdentityChanged), log;
        }
        if status == Up {
          var now := vapi.clock;
          if activeSince.None? {
            activeSince := Some(now);
          }
          if now - activeSince.value >= stable {
            ActiveEnough(log, stable);
            return Ok(true), log;
          }
        } else if status == SettingUp {
          activeSince := None;
        } else {
          return Err(Terminal), log;
        }
      }
      var remaining := deadline - vapi.clock;
      if remaining <= 0 {
        return Err(TimedOut), log;
      }
      if poll < 0 {
        return Err(SleepInvalid), log;
      }
      vapi.Pass(if poll < remaining then poll else remaining);
    }
  }

  /** What a read of the phone shows. */
  function Shown(found: bool, exact: bool, status: Status, now: int): Probe {
    if !found then Missing(now)
    else if !exact then Foreign(now)
    else
      match status
      case Up => Active(now)
      case SettingUp => Preparing(now)
      case Final => Ended(now)
  }

  // Three stable empty inventories

  /** One inventory, with its parsed timestamp. */
  datatype Observation = Observation(observedAt: int, projection: Projection, redacted: bool)

  /** The counts of an inventory by category. */
  datatype Projection = Projection(counts: map<string, int>)

  const REQUIRED := 3

  predicate AllZero(categories: set<string>, p: Projection) {
    p.counts.Keys == categories && forall k :: k in p.counts ==> p.counts[k] == 0
  }

  /** `observation_is_empty`, for the exact categories of the inventory. */
  predicate IsEmpty(categories: set<string>, o: Observation) {
    o.redacted && AllZero(categories, o.projection)
  }

  /** An empty inventory has only one possible projection. */
  lemma EmptyIsUnique(categories: set<string>, a: Observation, b: Observation)
    requires IsEmpty(categories, a) && IsEmpty(categories, b)
    ensures a.projection == b.projection
  {
    assert a.projection.counts == b.projection.counts;
  }

  /** The empty observations at the end of the log. */
  function Streak(categories: set<string>, log: seq<Observation>): seq<Observation> {
    if log == [] || !IsEmpty(categories, log[|log| - 1]) then []
    else Streak(categories, log[..|log| - 1]) + [log[|log| - 1]]
  }

  predicate Nondecreasing(o: seq<Observation>) {
    forall i :: 0 < i < |o| ==> o[i - 1].observedAt <= o[i].observedAt
  }

  /** In order, and far enough apart. */
  predicate Spans(o: seq<Observation>, span: int) {
    |o| == REQUIRED && Nondecreasing(o) && o[2].observedAt - o[0].observedAt >= span
  }

  datatype Proof = Proof(required: int, minimumSpan: int, observations: seq<Observation>)

  /** What a returned proof holds. */
  ghost predicate Proven(categories: set<string>, log: seq<Observation>, p: Proof) {
    && p.required == REQUIRED == |p.observations|
    && |log| >= REQUIRED && |Streak(categories, log)| >= REQUIRED
    && p.observations == log[|log| - REQUIRED..]
    && (forall i :: 0 <= i < REQUIRED ==> IsEmpty(categories, p.observations[i]))
    && Spans(p.observations, p.minimumSpan)
  }

  lemma {:induction false} StreakIsSuffix(categories: set<string>, log: seq<Observation>)
    ensures var s := Streak(categories, log);
            && |s| <= |log| && s == log[|log| - |s|..] && forall i :: 0 <= i < |s| ==> IsEmpty(categories, s[i])
  {
    if log != [] && IsEmpty(categories, log[|log| - 1]) {
      var init := log[..|log| - 1];
      StreakIsSuffix(categories, init);
      var s := Streak(categories, log);
      assert log[|log| - |s|..] == init[|init| - |Streak(categories, init)|..] + [log[|log| - 1]];
    }
  }

  lemma StreakMore(categories: set<string>, log: seq<Observation>, o: Observation)
    ensures Streak(categories, log + [o]) == if IsEmpty(categories, o) then Streak(categories, log) + [o] else []
  {
    assert (log + [o])[..|log|] == log;
  }

  lemma LastThree(categories: set<string>, log: seq<Observation>, span: int)
    requires |Streak(categories, log)| >= REQUIRED
    ensures |log| >= REQUIRED
            && Streak(categories, log)[|Streak(categories, log)| - REQUIRED..] == log[|log| - REQUIRED..]
    ensures var o := log[|log| - REQUIRED..];
            Spans(o, span) ==> Proven(categories, log, Proof(REQUIRED, span, o))
  {
    StreakIsSuffix(categories, log);
    var s, o := Streak(categories, log), log[|log| - REQUIRED..];
    assert o == s[|s| - REQUIRED..];
  }

  /** The last three of a streak are out of order or too close together. */
  ghost predicate Unordered(categories: set<string>, log: seq<Observation>, span: int) {
    |Streak(categories, log)| >= REQUIRED && |log| >= REQUIRED && !Spans(log[|log| - REQUIRED..], span)
  }

  /** What a long enough streak leads to. */
  function Conclude(stable: seq<Observation>, span: int): Result<Proof, WindowError>
    requires |stable| >= REQUIRED
  {
    var observations := stable[|stable| - REQUIRED..];
    if Spans(observations, span) then Ok(Proof(REQUIRED, span, observations)) else Err(NotSpanning)
  }

  lemma Concluded(categories: set<string>, log: seq<Observation>, stable: seq<Observation>, span: int)
    requires stable == Streak(categories, log) && |stable| >= REQUIRED
    ensures var r := Conclude(stable, span);
            && (r.Ok? ==> Proven(categories, log, r.value) && r.value.minimumSpan == span)
            && (r.Err? ==> r.error == NotSpanning && Unordered(categories, log, span))
  {
    LastThree(categories, log, span);
  }

  /** When one observation began and ended, on the monotonic clock. */
  datatype Window = Window(began: int, ended: int)

  /** The loop sleeps between observations. */
  predicate Paced(windows: seq<Window>) {
    forall i :: 0 <= i < |windows| ==>
      windows[i].began <= windows[i].ended && (i > 0 ==> windows[i - 1].ended < windows[i].began)
  }

  /** `n` paced observations, the last over by `now`. */
  predicate PacedUntil(windows: seq<Window>, n: nat, now: int) {
    Paced(windows) && |windows| == n && (n > 0 ==> windows[n - 1].ended < now)
  }

  lemma PacedMore(windows: seq<Window>, n: nat, now: int, w: Window)
    requires PacedUntil(windows, n, now) && now <= w.began <= w.ended
    ensures PacedUntil(windows + [w], n + 1, w.ended + 1)
  {
  }

  /** What the loop's variables say about the observations so far. */
  predicate Tracks(categories: set<string>, log: seq<Observation>, windows: seq<Window>, stable: seq<Observation>,
                   stableStarted: int, projection: Option<Projection>) {
    && |windows| == |log| && stable == Streak(categories, log)
    && projection == (if stable == [] then None else Some(stable[|stable| - 1].projection))
    && (stable != [] ==>
          && IsEmpty(categories, stable[|stable| - 1])
          && |stable| <= |log| && stableStarted == windows[|log| - |stable|].ended)
  }

  /** How long the streak had lasted: at least from the end of its first observation to that of its last. */
  predicate HeldFor(categories: set<string>, log: seq<Observation>, windows: seq<Window>, held: int) {
    var n := |Streak(categories, log)|;
    0 < n ==> n <= |windows| && held >= windows[|windows| - 1].ended - windows[|windows| - n].ended
  }

  lemma Restarted(categories: set<string>, log: seq<Observation>, windows: seq<Window>, stable: seq<Observation>,
                    stableStarted: int, projection: Option<Projection>, o: Observation, w: Window, held: int)
    requires Tracks(categories, log, windows, stable, stableStarted, projection) && !IsEmpty(categories, o)
    ensures Tracks(categories, log + [o], windows + [w], [], stableStarted, None)
    ensures HeldFor(categories, log + [o], windows + [w], held)
  {
    hide IsEmpty, Streak;
    StreakMore(categories, log, o);
  }

  /** The projection never restarts a streak: an empty inventory has only one. */
  lemma Continued(categories: set<string>, log: seq<Observation>, windows: seq<Window>, stable: seq<Observation>,
                  stableStarted: int, projection: Option<Projection>, o: Observation, w: Window)
    requires Tracks(categories, log, windows, stable, stableStarted, projection) && IsEmpty(categories, o)
    ensures projection != Some(o.projection) <==> stable == []
    ensures Tracks(categories, log + [o], windows + [w], stable + [o], if stable == [] then w.ended else stableStarted,
                   Some(o.projection))
  {
    hide IsEmpty, Streak;
    StreakMore(categories, log, o);
    if stable != [] {
      EmptyIsUnique(categories, o, stable[|stable| - 1]);
    }
  }

  lemma Measured(categories: set<string>, log: seq<Observation>, windows: seq<Window>, stable: seq<Observation>,
                 stableStarted: int, projection: Option<Projection>, held: int)
    requires Tracks(categories, log, windows, stable, stableStarted, projection) && stable != []
    requires held >= windows[|windows| - 1].ended - stableStarted
    ensures HeldFor(categories, log, windows, held)
  {
    hide IsEmpty, Streak;
  }

  lemma NothingObserved(categories: set<string>, stableStarted: int, held: int)
    ensures Tracks(categories, [], [], [], stableStarted, None) && HeldFor(categories, [], [], held)
  {
  }

  lemma TrackedStreak(categories: set<string>, log: seq<Observation>, windows: seq<Window>, stable: seq<Observation>,
                      stableStarted: int, projection: Option<Projection>)
    requires Tracks(categories, log, windows, stable, stableStarted, projection)
    ensures stable == Streak(categories, log)
  {
  }

  /** `stable_zero_resource_proof`; `held` is how long the streak had lasted when the loop last looked. The call
      concludes exactly when three observations have held for the span. */
  method StableZeroProof(vapi: Vapi, categories: set<string>, timeout: int, span: int)
    returns (r: Result<Proof, WindowError>, ghost log: seq<Observation>, ghost windows: seq<Window>, ghost held: int)
    modifies vapi
    ensures r.Ok? || r == Err(NotSpanning) <==> |Streak(categories, log)| >= REQUIRED && held >= span
    ensures |Streak(categories, log)| >= REQUIRED && held >= span ==> r == Conclude(Streak(categories, log), span)
    ensures HeldFor(categories, log, windows, held) && exists now :: PacedUntil(windows, |log|, now)
    ensures r.Ok? ==> Proven(categories, log, r.value) && r.value.minimumSpan == span
    ensures r == Err(NotConverged) ==> vapi.clock - old(vapi.clock) >= timeout
    ensures r == Err(NotSpanning) ==> Unordered(categories, log, span)
    ensures r == Err(RequestFailed) <==> vapi.faults > old(vapi.faults)
    ensures r.Err? ==> r.error in {NotConverged, NotSpanning, RequestFailed}
  {
    hide *;
    log, windows, held := [], [], 0;
    var started := vapi.clock;
    var stable: seq<Observation>, stableStarted: int, projection: Option<Projection> := [], started, None;
    ghost var now := started;
    NoWindows(now);
    NothingObserved(categories, stableStarted, held);
    TrackedStreak(categories, log, windows, stable, stableStarted, projection);
    NotYet();
    while vapi.clock - started <= timeout
      invariant vapi.clock >= started && vapi.faults == old(vapi.faults)
      invariant Tracks(categories, log, windows, stable, stableStarted, projection)
      invariant stable == Streak(categories, log) && HeldFor(categories, log, windows, held)
      invariant !(|stable| >= REQUIRED && held >= span)
      invariant PacedUntil(windows, |log|, now) && now <= vapi.clock
      decreases timeout - (vapi.clock - started)
    {
      ghost var began := vapi.clock;
      vapi.Pass(0);
      var failed: bool, o: Observation := *, *;
      if failed {
        vapi.faults := vapi.faults + 1;
        return Err(RequestFailed), log, windows, held;
      }
      ghost var w := Window(began, vapi.clock);
      PacedMore(windows, |log|, now, w);
      now := vapi.clock + 1;
      if !IsEmpty(categories, o) {
        Restarted(categories, log, windows, stable, stableStarted, projection, o, w, held);
        log, windows := log + [o], windows + [w];
        stable, projection := [], None;
        TrackedStreak(categories, log, windows, stable, stableStarted, projection);
        NotYet();
      } else {
        Continued(categories, log, windows, stable, stableStarted, projection, o, w);
        log, windows := log + [o], windows + [w];
        if projection != Some(o.projection) {
          stable, projection := [], Some(o.projection);
          stableStarted := vapi.clock;
        }
        stable := stable + [o];
        vapi.Pass(0);
        held := vapi.clock - stableStarted;
        TrackedStreak(categories, log, windows, stable, stableStarted, projection);
        Measured(categories, log, windows, stable, stableStarted, projection, held);
        if |stable| >= REQUIRED && vapi.clock - stableStarted >= span {
          Concluded(categories, log, stable, span);
          return Conclude(stable, span), log, windows, held;
        }
      }
      var remaining := timeout - (vapi.clock - started);
      if remaining <= 0 {
        break;
      }
      var pause := if stable != [] then 30000 else 5000;
      vapi.Pass(if pause < remaining then pause else remaining);
    }
    assert PacedUntil(windows, |log|, now);
    return Err(NotConverged), log, windows, held;
  }

  lemma NotYet()
    ensures REQUIRED > 0
  {
  }

  lemma NoWindows(now: int)
    ensures PacedUntil([], 0, now)
  {
  }

  lemma EmptyStreak(categories: set<string>)
    ensures Streak(categories, []) == []
  {
  }

  const REQUIRED_SPAN := 60000

  /** The checks of the release verifier on the observations of a proof. */
  predicate Verified(categories: set<string>, p: Proof) {
    && p.required == REQUIRED && p.minimumSpan == REQUIRED_SPAN && |p.observations| == REQUIRED
    && (forall i :: 0 <= i < REQUIRED ==> IsEmpty(categories, p.observations[i]))
    && p.observations[0].observedAt < p.observations[1].observedAt < p.observations[2].observedAt
    && p.observations[2].observedAt - p.observations[0].observedAt >= REQUIRED_SPAN
  }

  /** The producer orders its timestamps loosely and the verifier strictly: a proof with the default span passes
      the verifier exactly when its three timestamps are all different. */
  lemma VerifiedIffStrict(categories: set<string>, log: seq<Observation>, p: Proof)
    requires Proven(categories, log, p) && p.minimumSpan == REQUIRED_SPAN
    ensures Verified(categories, p)
            <==>
              p.observations[0].observedAt != p.observations[1].observedAt
              && p.observations[1].observedAt != p.observations[2].observedAt
  {
    assert p.observations[0].observedAt <= p.observations[1].observedAt <= p.observations[2].observedAt;
  }

  /** The observations' wall-clock timestamps run with the monotonic clock. */
  predicate Stamped(log: seq<Observation>, windows: seq<Window>, offset: int) {
    |log| == |windows| && forall i ::
      0 <= i < |log|
      ==> windows[i].began <= log[i].observedAt - offset <= windows[i].ended
  }

  /** With a wall clock that is never set back, every proof of the default span passes the verifier: the loop
      sleeps between the observations of a streak. */
  lemma SteadyClockIsVerified(categories: set<string>, log: seq<Observation>, windows: seq<Window>, offset: int,
                              p: Proof)
    requires Proven(categories, log, p) && p.minimumSpan == REQUIRED_SPAN
    requires Paced(windows) && Stamped(log, windows, offset)
    ensures Verified(categories, p)
  {
    var n := |log|;
    assert p.observations[0] == log[n - 3] && p.observations[1] == log[n - 2] && p.observations[2] == log[n - 1];
    assert windows[n - 3].ended < windows[n - 2].began && windows[n - 2].ended < windows[n - 1].began;
    VerifiedIffStrict(categories, log, p);
  }

  /** With one that is set back between two observations it can be different: on these three the producer
      concludes with a proof, which the verifier refuses. */
  lemma ProvenButNotVerified(categories: set<string>, zero: Projection, t: int)
    requires AllZero(categories, zero)
    ensures
      var a, b := Observation(t, zero, true), Observation(t + REQUIRED_SPAN, zero, true);
      var p := Proof(REQUIRED, REQUIRED_SPAN, [a, a, b]);
      && Streak(categories, [a, a, b]) == [a, a, b] && Conclude([a, a, b], REQUIRED_SPAN) == Ok(p)
      && Proven(categories, [a, a, b], p) && !Verified(categories, p)
      && forall windows, offset :: Paced(windows) ==> !Stamped([a, a, b], windows, offset)
  {
    var a, b := Observation(t, zero, true), Observation(t + REQUIRED_SPAN, zero, true);
    var log, p := [a, a, b], Proof(REQUIRED, REQUIRED_SPAN, [a, a, b]);
    assert IsEmpty(categories, a) && IsEmpty(categories, b);
    assert log[|log| - REQUIRED..] == log;
    assert Spans(log, REQUIRED_SPAN);
    hide Streak, IsEmpty, AllZero, Proven, Paced, Stamped, Verified, Spans;
    StreakOfThree(categories, a, a, b);
    LastThree(categories, log, REQUIRED_SPAN);
    NotStrict(categories, a, b);
    NeverStamped(categories, log, p);
  }

  lemma NeverStamped(categories: set<string>, log: seq<Observation>, p: Proof)
    requires Proven(categories, log, p) && p.minimumSpan == REQUIRED_SPAN && !Verified(categories, p)
    ensures forall windows, offset :: Paced(windows) ==> !Stamped(log, windows, offset)
  {
    hide *;
    forall windows, offset | Paced(windows) ensures !Stamped(log, windows, offset) {
      if Stamped(log, windows, offset) {
        SteadyClockIsVerified(categories, log, windows, offset, p);
      }
    }
  }

  lemma StreakOfThree(categories: set<string>, a: Observation, b: Observation, c: Observation)
    requires IsEmpty(categories, a) && IsEmpty(categories, b) && IsEmpty(categories, c)
    ensures Streak(categories, [a, b, c]) == [a, b, c]
  {
    hide Streak, IsEmpty;
    EmptyStreak(categories);
    StreakMore(categories, [], a);
    StreakMore(categories, [a], b);
    StreakMore(categories, [a, b], c);
    assert [] + [a] == [a] && [a] + [b] == [a, b] && [a, b] + [c] == [a, b, c];
  }

  lemma NotStrict(categories: set<string>, a: Observation, b: Observation)
    ensures !Verified(categories, Proof(REQUIRED, REQUIRED_SPAN, [a, a, b]))
  {
  }
}
