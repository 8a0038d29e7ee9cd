/** Listing and purging every version of the objects under one target (qualification/controller.py:
    `list_object_versions_exact`, `purge_object_versions_exact`).

    The bucket is adversarial: an answer may be anything and the contents may change under the caller; each such
    departure from an honest bucket is counted in the ghost field `faults`. */
module ObjectVersions {
  import opened Wrappers
  import Collections
  import Json
  import Text

  const MAX_PAGES := 100
  const MAX_VERSIONS := 10000
  const MAX_DELETE := 1000
  const PAGE_SIZE := 1000

  /** One version or delete marker. A malformed list item has an empty version. */
  datatype Identity = Identity(key: string, version: string)

  datatype Page = Page(versions: seq<Identity>, deleteMarkers: seq<Identity>, truncated: bool, next: Option<Identity>)

  datatype ListError =
    | TargetInvalid | ListInvalid | Duplicated | BoundExceeded | NotAdvancing | DeletionFailed
    | Remaining

  // Targets

  predicate Printable(s: string) {
    forall i :: 0 <= i < |s| ==> s[i] >= ' ' && s[i] != 0x7f as char
  }

  /** `_validate_version_target`: one object, or everything under one folder, of one execution. */
  predicate TargetOk(prefix: string, exactKey: bool, isExecution: string -> bool) {
    var parts := Text.Split(prefix, '/');
    && |parts| >= 3 && parts[0] == "qualification" && isExecution(parts[1])
    && prefix != "" && (exactKey <==> prefix[|prefix| - 1] != '/')
    && Json.Utf8Length(prefix) <= 512 && Printable(prefix) && ".." !in parts
  }

  predicate ValidIdentity(prefix: string, id: Identity) {
    && prefix <= id.key && Json.Utf8Length(id.key) <= 1024 && Printable(id.key)
    && 1 <= |id.version| <= 1024 && Printable(id.version)
  }

  predicate InTarget(prefix: string, exactKey: bool, id: Identity) {
    prefix <= id.key && (exactKey <==> id.key == prefix)
  }

  lemma FirstParts(prefix: string, key: string)
    requires prefix <= key && |Text.Split(prefix, '/')| >= 3
    ensures |Text.Split(key, '/')| >= 2 && Text.Split(key, '/')[1] == Text.Split(prefix, '/')[1]
  {
    assert key == prefix + key[|prefix|..];
    Text.SplitExtended(prefix, key[|prefix|..], '/');
    Text.MergeKeeps(Text.Split(prefix, '/'), Text.Split(key[|prefix|..], '/'), 1);
  }

  /** The targets of different executions have no object in common: whatever is listed or purged for one is
      out of reach of the other. */
  lemma ExecutionsAreApart(a: string, exactA: bool, b: string, exactB: bool, isExecution: string -> bool, id: Identity)
    requires TargetOk(a, exactA, isExecution) && TargetOk(b, exactB, isExecution)
    requires Text.Split(a, '/')[1] != Text.Split(b, '/')[1] && InTarget(a, exactA, id)
    ensures !InTarget(b, exactB, id)
  {
    hide Json.Utf8Length, Printable, Text.Split;
    if InTarget(b, exactB, id) {
      FirstParts(a, id.key);
      FirstParts(b, id.key);
    }
  }

  // What one page adds

  predicate NoDuplicates(ids: seq<Identity>) {
    forall i, j :: 0 <= i < j < |ids| ==> ids[i] != ids[j]
  }

  /** The listed items that belong to the target: an exact target skips the others. */
  function Kept(prefix: string, exactKey: bool, values: seq<Identity>): seq<Identity> {
    if values == [] then []
    else
      var last := values[|values| - 1];
      Kept(prefix, exactKey, values[..|values| - 1]) + if exactKey && last.key != prefix then [] else [last]
  }

  /** An item of a page is acceptable; under a folder the folder's own key is not. */
  predicate ItemOk(prefix: string, exactKey: bool, id: Identity) {
    ValidIdentity(prefix, id) && (!exactKey ==> id.key != prefix)
  }

  predicate Acceptable(prefix: string, exactKey: bool, results: seq<Identity>, values: seq<Identity>) {
    && (forall id :: id in values ==> ItemOk(prefix, exactKey, id))
    && NoDuplicates(results + Kept(prefix, exactKey, values))
    && |results + Kept(prefix, exactKey, values)| <= MAX_VERSIONS
  }

  function Elements(ids: seq<Identity>): set<Identity> {
    set id | id in ids
  }

  lemma KeptMore(prefix: string, exactKey: bool, values: seq<Identity>, id: Identity)
    ensures Kept(prefix, exactKey, values + [id])
         == Kept(prefix, exactKey, values) + if exactKey && id.key != prefix then [] else [id]
  {
    assert (values + [id])[..|values|] == values;
  }

  lemma {:induction false} KeptPrefix(prefix: string, exactKey: bool, values: seq<Identity>, k: nat)
    requires k <= |values|
    ensures Kept(prefix, exactKey, values[..k]) <= Kept(prefix, exactKey, values)
    decreases |values| - k
  {
    if k == |values| {
      assert values[..k] == values;
    } else {
      KeptPrefix(prefix, exactKey, values, k + 1);
      assert values[..k + 1] == values[..k] + [values[k]];
      KeptMore(prefix, exactKey, values[..k], values[k]);
    }
  }

  lemma {:induction false} KeptElements(prefix: string, exactKey: bool, values: seq<Identity>)
    ensures Elements(Kept(prefix, exactKey, values)) == set id | id in values && (exactKey ==> id.key == prefix)
  {
    if values != [] {
      var init, last := values[..|values| - 1], values[|values| - 1];
      assert values == init + [last];
      KeptElements(prefix, exactKey, init);
      assert forall id :: id in values <==> id in init || id == last;
      assert forall id :: id in Kept(prefix, exactKey, values) <==> id in Elements(Kept(prefix, exactKey, values));
      assert forall id :: id in Kept(prefix, exactKey, init) <==> id in Elements(Kept(prefix, exactKey, init));
    }
  }

  lemma AcceptablePrefix(prefix: string, exactKey: bool, results: seq<Identity>, values: seq<Identity>, k: nat)
    requires k <= |values| && Acceptable(prefix, exactKey, results, values)
    ensures Acceptable(prefix, exactKey, results, values[..k])
  {
    KeptPrefix(prefix, exactKey, values, k);
    var some, all := results + Kept(prefix, exactKey, values[..k]), results + Kept(prefix, exactKey, values);
    assert some <= all;
    forall i, j | 0 <= i < j < |some| ensures some[i] != some[j] {
      assert some[i] == all[i] && some[j] == all[j];
    }
  }

  lemma AcceptableMore(prefix: string, exactKey: bool, results: seq<Identity>, values: seq<Identity>, id: Identity)
    requires Acceptable(prefix, exactKey, results, values)
    ensures Acceptable(prefix, exactKey, results, values + [id])
            <==> ItemOk(prefix, exactKey, id)
                 && ((exactKey && id.key != prefix)
                     || (id !in results + Kept(prefix, exactKey, values)
                         && |results + Kept(prefix, exactKey, values)| < MAX_VERSIONS))
  {
    KeptMore(prefix, exactKey, values, id);
    hide Kept, ItemOk;
    var before := results + Kept(prefix, exactKey, values);
    var after := results + Kept(prefix, exactKey, values + [id]);
    assert forall x :: x in values + [id] <==> x in values || x == id;
    if exactKey && id.key != prefix {
      assert after == before;
    } else {
      assert after == before + [id];
      if id in before {
        var i :| 0 <= i < |before| && before[i] == id;
        assert after[i] == after[|before|];
      }
    }
  }

  /** One of the two lists of a page. */
  method AddItems(prefix: string, exactKey: bool, results: seq<Identity>, values: seq<Identity>)
    returns (r: Result<seq<Identity>, ListError>)
    requires NoDuplicates(results) && |results| <= MAX_VERSIONS
    ensures r.Ok? <==> Acceptable(prefix, exactKey, results, values)
    ensures r.Ok? ==>
              r.value == results + Kept(prefix, exactKey, values) && NoDuplicates(r.value)
              && |r.value| <= MAX_VERSIONS
    ensures r.Ok? ==> forall id :: id in Kept(prefix, exactKey, values) ==>
              InTarget(prefix, exactKey, id)
              && ValidIdentity(prefix, id)
  {
    hide ItemOk, NoDuplicates, Kept, Acceptable;
    assert values[..0] == [];
    NothingAdded(prefix, exactKey, results);
    var all := results;
    for i := 0 to |values|
      invariant Acceptable(prefix, exactKey, results, values[..i])
      invariant all == results + Kept(prefix, exactKey, values[..i])
    {
      var id := values[i];
      assert values[..i + 1] == values[..i] + [id];
      AcceptableMore(prefix, exactKey, results, values[..i], id);
      KeptMore(prefix, exactKey, values[..i], id);
      if !ItemOk(prefix, exactKey, id) {
        NotAcceptable(prefix, exactKey, results, values, i + 1);
        return Err(ListInvalid);
      }
      if exactKey && id.key != prefix {
        assert results + Kept(prefix, exactKey, values[..i + 1]) == all;
        continue;
      }
      if id in all || |all| >= MAX_VERSIONS {
        NotAcceptable(prefix, exactKey, results, values, i + 1);
        return Err(if id in all then Duplicated else BoundExceeded);
      }
      all := all + [id];
    }
    assert values[..|values|] == values;
    AcceptedInTarget(prefix, exactKey, results, values);
    return Ok(all);
  }

  lemma AcceptedInTarget(prefix: string, exactKey: bool, results: seq<Identity>, values: seq<Identity>)
    requires Acceptable(prefix, exactKey, results, values)
    ensures NoDuplicates(results + Kept(prefix, exactKey, values))
            && |results + Kept(prefix, exactKey, values)| <= MAX_VERSIONS
    ensures forall id :: id in Kept(prefix, exactKey, values) ==>
              InTarget(prefix, exactKey, id)
              && ValidIdentity(prefix, id)
  {
    KeptElements(prefix, exactKey, values);
    forall id | id in Kept(prefix, exactKey, values)
      ensures InTarget(prefix, exactKey, id) && ValidIdentity(prefix, id)
    {
      assert id in Elements(Kept(prefix, exactKey, values));
      assert ItemOk(prefix, exactKey, id);
    }
  }

  lemma NothingAdded(prefix: string, exactKey: bool, results: seq<Identity>)
    requires NoDuplicates(results) && |results| <= MAX_VERSIONS
    ensures Kept(prefix, exactKey, []) == [] && Acceptable(prefix, exactKey, results, [])
  {
    assert results + [] == results;
  }

  lemma NotAcceptable(prefix: string, exactKey: bool, results: seq<Identity>, values: seq<Identity>, k: nat)
    requires k <= |values| && !Acceptable(prefix, exactKey, results, values[..k])
    ensures !Acceptable(prefix, exactKey, results, values)
  {
    if Acceptable(prefix, exactKey, results, values) {
      AcceptablePrefix(prefix, exactKey, results, values, k);
    }
  }

  // An honest bucket

  function Where(ids: seq<Identity>, p: Identity -> bool): seq<Identity> {
    if ids == [] then []
    else Where(ids[..|ids| - 1], p) + if p(ids[|ids| - 1]) then [ids[|ids| - 1]] else []
  }

  function Under(contents: seq<Identity>, prefix: string): seq<Identity> {
    Where(contents, (id: Identity) => prefix <= id.key)
  }

  function VersionsIn(isMarker: Identity -> bool, ids: seq<Identity>): seq<Identity> {
    Where(ids, id => !isMarker(id))
  }

  function MarkersIn(isMarker: Identity -> bool, ids: seq<Identity>): seq<Identity> {
    Where(ids, isMarker)
  }

  /** How far a listing that continues after `marker` has come. */
  function Position(list: seq<Identity>, marker: Option<Identity>): (n: nat)
    ensures n <= |list|
  {
    if marker.None? || list == [] then 0
    else if list[|list| - 1] == marker.value then |list|
    else Position(list[..|list| - 1], marker)
  }

  /** Where a page that is as full as it may be ends. */
  function PageEnd(list: seq<Identity>, start: nat): nat {
    if start + PAGE_SIZE < |list| then start + PAGE_SIZE else |list|
  }

  /** A page may hold fewer items than were asked for, but goes on unless nothing is left. */
  predicate MayEnd(list: seq<Identity>, start: nat, end: nat) {
    start <= end <= |list| && end <= start + PAGE_SIZE && (start < |list| ==> start < end)
  }

  /** The page from one place to another: versions and delete markers come apart, the last of them is the next
      marker. */
  function PageOf(isMarker: Identity -> bool, list: seq<Identity>, start: nat, end: nat): Page
    requires MayEnd(list, start, end)
  {
    var items := list[start..end];
    Page(VersionsIn(isMarker, items), MarkersIn(isMarker, items), end < |list|,
         if end < |list| then Some(list[end - 1]) else None)
  }

  lemma {:induction false} WhereElements(ids: seq<Identity>, p: Identity -> bool)
    ensures forall id :: id in Where(ids, p) <==> id in ids && p(id)
    ensures NoDuplicates(ids) ==> NoDuplicates(Where(ids, p))
  {
    if ids != [] {
      var init, last := ids[..|ids| - 1], ids[|ids| - 1];
      assert ids == init + [last];
      WhereElements(init, p);
      if NoDuplicates(ids) {
        assert last !in init;
        assert NoDuplicates(init);
      }
    }
  }

  lemma PartsOf(isMarker: Identity -> bool, ids: seq<Identity>)
    ensures forall id :: id in VersionsIn(isMarker, ids) <==> id in ids && !isMarker(id)
    ensures forall id :: id in MarkersIn(isMarker, ids) <==> id in ids && isMarker(id)
    ensures NoDuplicates(ids) ==> NoDuplicates(VersionsIn(isMarker, ids)) && NoDuplicates(MarkersIn(isMarker, ids))
  {
    WhereElements(ids, id => !isMarker(id));
    WhereElements(ids, isMarker);
  }

  lemma {:induction false} PositionOf(list: seq<Identity>, i: nat)
    requires i < |list| && NoDuplicates(list)
    ensures Position(list, Some(list[i])) == i + 1
  {
    if i < |list| - 1 {
      var init := list[..|list| - 1];
      assert init[i] == list[i] && list[i] != list[|list| - 1];
      PositionOf(init, i);
    }
  }

  /** What a listing of the target consists of. */
  function TargetSet(prefix: string, exactKey: bool, list: seq<Identity>): set<Identity> {
    set id | id in list && (exactKey ==> id.key == prefix)
  }

  /** When an honest listing of these items succeeds. */
  predicate Listable(prefix: string, exactKey: bool, list: seq<Identity>) {
    && (forall id :: id in list ==> ItemOk(prefix, exactKey, id))
    && |TargetSet(prefix, exactKey, list)| <= MAX_VERSIONS && |list| <= MAX_PAGES * PAGE_SIZE
  }

  class Bucket {
    const isMarker: Identity -> bool
    /** Every version and delete marker, in listing order. */
    var contents: seq<Identity>
    ghost var faults: nat
    /** How many honest pages were shorter than they might have been. */
    ghost var short: nat
    /** The deletion requests received. */
    ghost var requests: seq<seq<Identity>>

    ghost predicate Valid()
      reads this
    {
      NoDuplicates(contents)
    }

    /** `end` is where an honest page ends. */
    method ListPage(prefix: string, marker: Option<Identity>) returns (p: Option<Page>, ghost end: nat)
      requires Valid()
      modifies this`contents, this`faults, this`short
      ensures Valid() && faults >= old(faults) && short >= old(short)
      ensures faults == old(faults) ==>
                && contents == old(contents)
                && var list := Under(contents, prefix);
                   var start := Position(list, marker);
                   && MayEnd(list, start, end) && p == Some(PageOf(isMarker, list, start, end))
                   && (short == old(short) ==> end == PageEnd(list, start))
    {
      end := 0;
      var fault: bool := *;
      if fault {
        Change();
        p := *;
        return;
      }
      var list := Under(contents, prefix);
      var start := Position(list, marker);
      var stop: nat := *;
      if !MayEnd(list, start, stop) {
        stop := PageEnd(list, start);
      }
      if stop != PageEnd(list, start) {
        short := short + 1;
      }
      return Some(PageOf(isMarker, list, start, stop)), stop;
    }

    /** None stands for an answer that lists errors or is no list. */
    method DeleteObjects(chunk: seq<Identity>) returns (deleted: Option<seq<Identity>>)
      requires Valid()
      modifies this`contents, this`faults, this`requests
      ensures Valid() && faults >= old(faults) && requests == old(requests) + [chunk]
      ensures faults == old(faults) ==>
                contents == Where(old(contents), id => id !in chunk) && deleted == Some(chunk)
    {
      requests := requests + [chunk];
      var fault: bool := *;
      if fault {
        Change();
        deleted := *;
        return;
      }
      WhereElements(contents, id => id !in chunk);
      contents := Where(contents, id => id !in chunk);
      return Some(chunk);
    }

    method Change()
      requires Valid()
      modifies this`contents, this`faults
      ensures Valid() && faults == old(faults) + 1
    {
      var changed: seq<Identity> := *;
      if NoDuplicates(changed) {
        contents := changed;
      }
      faults := faults + 1;
    }
  }

  /** An honest listing of `list` so far. */
  ghost predicate Walk(prefix: string, exactKey: bool, list: seq<Identity>, start: nat, marker: Option<Identity>,
                       seen: set<Option<Identity>>, results: seq<Identity>) {
    && start <= |list| && NoDuplicates(list)
    && (marker.None? <==> start == 0) && (marker.Some? ==> start < |list| && marker.value == list[start - 1])
    && (forall m :: m in seen ==> start > 0 && (m.None? || m.value in list[..start - 1]))
    && (forall id :: id in list[..start] ==> ItemOk(prefix, exactKey, id))
    && Elements(results) == TargetSet(prefix, exactKey, list[..start])
  }

  lemma WalkStarts(list: seq<Identity>, start: nat, marker: Option<Identity>, prefix: string, exactKey: bool,
                   seen: set<Option<Identity>>, results: seq<Identity>)
    requires Walk(prefix, exactKey, list, start, marker, seen, results)
    ensures marker !in seen && Position(list, marker) == start
  {
    if marker.Some? {
      PositionOf(list, start - 1);
      assert forall i :: 0 <= i < start - 1 ==> list[i] != list[start - 1];
    }
  }

  lemma Apart(a: seq<Identity>, b: seq<Identity>)
    requires NoDuplicates(a) && NoDuplicates(b) && forall id :: id in a ==> id !in b
    ensures NoDuplicates(a + b)
  {
    var all := a + b;
    forall i, j | 0 <= i < j < |all| ensures all[i] != all[j] {
      if i < |a| <= j {
        assert a[i] in a && b[j - |a|] in b;
      }
    }
  }

  lemma {:induction false} Cardinality(ids: seq<Identity>)
    requires NoDuplicates(ids)
    ensures |Elements(ids)| == |ids|
  {
    if ids != [] {
      var init, last := ids[..|ids| - 1], ids[|ids| - 1];
      assert ids == init + [last];
      Cardinality(init);
      assert Elements(ids) == Elements(init) + {last};
    }
  }

  lemma {:induction false} KeptApart(prefix: string, exactKey: bool, values: seq<Identity>)
    requires NoDuplicates(values)
    ensures NoDuplicates(Kept(prefix, exactKey, values))
  {
    if values != [] {
      var init, last := values[..|values| - 1], values[|values| - 1];
      assert values == init + [last];
      KeptApart(prefix, exactKey, init);
      KeptElements(prefix, exactKey, init);
      assert forall id :: id in Kept(prefix, exactKey, init) ==> id in Elements(Kept(prefix, exactKey, init));
      assert last !in init;
      Apart(Kept(prefix, exactKey, init), if exactKey && last.key != prefix then [] else [last]);
    }
  }

  lemma Fits(prefix: string, exactKey: bool, list: seq<Identity>, ids: seq<Identity>)
    requires Listable(prefix, exactKey, list) && NoDuplicates(ids) && Elements(ids) <= TargetSet(prefix, exactKey, list)
    ensures |ids| <= MAX_VERSIONS
  {
    Cardinality(ids);
    Collections.SubsetSize(Elements(ids), TargetSet(prefix, exactKey, list));
  }

  /** The items of a page, both lists together, that belong to the target. */
  function PageKept(isMarker: Identity -> bool, prefix: string, exactKey: bool, items: seq<Identity>): seq<Identity> {
    Kept(prefix, exactKey, VersionsIn(isMarker, items)) + Kept(prefix, exactKey, MarkersIn(isMarker, items))
  }

  lemma PageElements(isMarker: Identity -> bool, prefix: string, exactKey: bool, items: seq<Identity>)
    ensures Elements(PageKept(isMarker, prefix, exactKey, items)) == TargetSet(prefix, exactKey, items)
    ensures NoDuplicates(items) ==> NoDuplicates(PageKept(isMarker, prefix, exactKey, items))
  {
    var v, d := VersionsIn(isMarker, items), MarkersIn(isMarker, items);
    PartsOf(isMarker, items);
    KeptMembers(prefix, exactKey, v);
    KeptMembers(prefix, exactKey, d);
    hide VersionsIn, MarkersIn, Kept, NoDuplicates;
    var kv, kd := Kept(prefix, exactKey, v), Kept(prefix, exactKey, d);
    assert PageKept(isMarker, prefix, exactKey, items) == kv + kd;
    forall id ensures id in kv + kd <==> id in items && (exactKey ==> id.key == prefix) {
      assert id in kv + kd <==> id in kv || id in kd;
      assert isMarker(id) || !isMarker(id);
    }
    if NoDuplicates(items) {
      KeptApart(prefix, exactKey, v);
      KeptApart(prefix, exactKey, d);
      Apart(kv, kd);
    }
  }

  lemma KeptMembers(prefix: string, exactKey: bool, values: seq<Identity>)
    ensures forall id :: id in Kept(prefix, exactKey, values) <==> id in values && (exactKey ==> id.key == prefix)
  {
    KeptElements(prefix, exactKey, values);
    hide Kept;
    assert forall id :: id in Kept(prefix, exactKey, values) <==> id in Elements(Kept(prefix, exactKey, values));
  }

  lemma TargetSplit(prefix: string, exactKey: bool, list: seq<Identity>, start: nat, end: nat)
    requires start <= end <= |list|
    ensures TargetSet(prefix, exactKey, list[..end])
         == TargetSet(prefix, exactKey, list[..start]) + TargetSet(prefix, exactKey, list[start..end])
    ensures forall id :: id in list[..end] <==> id in list[..start] || id in list[start..end]
    ensures forall id :: id in list[..end] ==> id in list
    ensures NoDuplicates(list) ==> NoDuplicates(list[start..end]) && forall id ::
              id in list[..start]
              ==> id !in list[start..end]
  {
    assert list[..end] == list[..start] + list[start..end];
  }

  /** A page of an honest bucket is accepted if the whole listing can be. */
  lemma PageAccepted(isMarker: Identity -> bool, prefix: string, exactKey: bool, list: seq<Identity>, start: nat,
                     end: nat, marker: Option<Identity>, seen: set<Option<Identity>>, results: seq<Identity>)
    requires Walk(prefix, exactKey, list, start, marker, seen, results) && start <= end <= |list|
    requires NoDuplicates(results) && Listable(prefix, exactKey, list)
    ensures
      var v, d := VersionsIn(isMarker, list[start..end]), MarkersIn(isMarker, list[start..end]);
      && Acceptable(prefix, exactKey, results, v)
      && Acceptable(prefix, exactKey, results + Kept(prefix, exactKey, v), d)
  {
    var items := list[start..end];
    var v, d := VersionsIn(isMarker, items), MarkersIn(isMarker, items);
    TargetSplit(prefix, exactKey, list, start, end);
    PartsOf(isMarker, items);
    PageElements(isMarker, prefix, exactKey, items);
    var kept := PageKept(isMarker, prefix, exactKey, items);
    var some := results + Kept(prefix, exactKey, v);
    assert results + kept == some + Kept(prefix, exactKey, d);
    hide Kept, VersionsIn, MarkersIn, ItemOk, PageKept;
    PageFits(prefix, exactKey, list, start, end, results, kept);
    PrefixApart(some, results + kept);
  }

  lemma PrefixApart(a: seq<Identity>, b: seq<Identity>)
    requires NoDuplicates(b) && a <= b
    ensures NoDuplicates(a)
  {
    assert forall i :: 0 <= i < |a| ==> a[i] == b[i];
  }

  /** Results so far and the next items of an acceptable listing are all different, and not too many. */
  lemma PageFits(prefix: string, exactKey: bool, list: seq<Identity>, start: nat, end: nat, results: seq<Identity>,
                 kept: seq<Identity>)
    requires start <= end <= |list| && NoDuplicates(list) && NoDuplicates(results) && NoDuplicates(kept)
    requires Listable(prefix, exactKey, list) && Elements(results) == TargetSet(prefix, exactKey, list[..start])
    requires Elements(kept) == TargetSet(prefix, exactKey, list[start..end])
    ensures NoDuplicates(results + kept) && |results + kept| <= MAX_VERSIONS
  {
    TargetSplit(prefix, exactKey, list, start, end);
    assert forall id :: id in results <==> id in Elements(results);
    assert forall id :: id in kept <==> id in Elements(kept);
    hide NoDuplicates, ItemOk;
    Apart(results, kept);
    forall id | id in Elements(results + kept) ensures id in TargetSet(prefix, exactKey, list) {
      assert id in Elements(results) || id in Elements(kept);
    }
    Fits(prefix, exactKey, list, results + kept);
  }

  /** And moves the listing on. */
  lemma WalkOn(isMarker: Identity -> bool, prefix: string, exactKey: bool, list: seq<Identity>, start: nat, end: nat,
               marker: Option<Identity>, seen: set<Option<Identity>>, results: seq<Identity>)
    requires Walk(prefix, exactKey, list, start, marker, seen, results) && start <= end <= |list|
    requires var v, d := VersionsIn(isMarker, list[start..end]), MarkersIn(isMarker, list[start..end]);
             && Acceptable(prefix, exactKey, results, v)
             && Acceptable(prefix, exactKey, results + Kept(prefix, exactKey, v), d)
    ensures var all := results + PageKept(isMarker, prefix, exactKey, list[start..end]);
            && Elements(all) == TargetSet(prefix, exactKey, list[..end])
            && (forall id :: id in list[..end] ==> ItemOk(prefix, exactKey, id))
            && (start < end < |list| ==>
                  Walk(prefix, exactKey, list, end, Some(list[end - 1]), seen + {marker}, all)
                  && ValidIdentity(prefix, list[end - 1]))
  {
    hide Kept, Where, VersionsIn, MarkersIn, Acceptable, PageKept, NoDuplicates, ValidIdentity;
    var items := list[start..end];
    TargetSplit(prefix, exactKey, list, start, end);
    PageElements(isMarker, prefix, exactKey, items);
    PageItemsOk(isMarker, prefix, exactKey, results, items);
    var kept := PageKept(isMarker, prefix, exactKey, items);
    assert Elements(results + kept) == Elements(results) + Elements(kept);
    if start < end < |list| {
      assert list[end - 1] in list[..end];
      MarkersBehind(list, start, end, marker, seen);
    }
  }

  lemma PageItemsOk(isMarker: Identity -> bool, prefix: string, exactKey: bool, results: seq<Identity>,
                    items: seq<Identity>)
    requires var v, d := VersionsIn(isMarker, items), MarkersIn(isMarker, items);
             && Acceptable(prefix, exactKey, results, v)
             && Acceptable(prefix, exactKey, results + Kept(prefix, exactKey, v), d)
    ensures forall id :: id in items ==> ItemOk(prefix, exactKey, id)
  {
    PartsOf(isMarker, items);
    hide ItemOk, Where, VersionsIn, MarkersIn, Kept;
    forall id | id in items ensures ItemOk(prefix, exactKey, id) {
      assert isMarker(id) || !isMarker(id);
    }
  }

  lemma MarkersBehind(list: seq<Identity>, start: nat, end: nat, marker: Option<Identity>, seen: set<Option<Identity>>)
    requires start < end < |list| && (marker.None? <==> start == 0)
             && (marker.Some? ==> marker.value == list[start - 1])
    requires forall m :: m in seen ==> start > 0 && (m.None? || m.value in list[..start - 1])
    ensures forall m :: m in seen + {marker} ==> end > 0 && (m.None? || m.value in list[..end - 1])
  {
    forall m | m in seen + {marker} && m.Some? ensures m.value in list[..end - 1] {
      if m in seen {
        assert list[..start - 1] <= list[..end - 1];
      } else {
        assert list[..end - 1][start - 1] == m.value;
      }
    }
  }

  predicate AllInTarget(prefix: string, exactKey: bool, ids: seq<Identity>) {
    forall id :: id in ids ==> InTarget(prefix, exactKey, id) && ValidIdentity(prefix, id)
  }

  /** One page: the results with its items, and the marker to continue from, if any. */
  method ReadPage(s3: Bucket, prefix: string, exactKey: bool, marker: Option<Identity>, results: seq<Identity>,
                  ghost list: seq<Identity>, ghost start: nat, ghost seen: set<Option<Identity>>)
    returns (r: Result<(seq<Identity>, Option<Identity>), ListError>, ghost end: nat)
    requires s3.Valid() && NoDuplicates(results) && |results| <= MAX_VERSIONS && AllInTarget(prefix, exactKey, results)
    modifies s3`contents, s3`faults, s3`short
    ensures s3.Valid() && s3.faults >= old(s3.faults) && s3.short >= old(s3.short)
    ensures r.Ok? ==> NoDuplicates(r.value.0) && |r.value.0| <= MAX_VERSIONS && AllInTarget(prefix, exactKey, r.value.0)
    ensures s3.faults == old(s3.faults) ==> s3.contents == old(s3.contents)
    ensures s3.faults == old(s3.faults) && list == Under(s3.contents, prefix)
            && Walk(prefix, exactKey, list, start, marker, seen, results)
                && start + PAGE_SIZE <= MAX_PAGES * PAGE_SIZE ==>
              && (Listable(prefix, exactKey, list) ==> r.Ok?)
              && (r.Ok? && r.value.1.Some? ==>
                    && start < end <= start + PAGE_SIZE && (s3.short == old(s3.short) ==> end == start + PAGE_SIZE)
                    && Walk(prefix, exactKey, list, end, r.value.1, seen + {marker}, r.value.0))
              && (r.Ok? && r.value.1.None? ==>
                    Listable(prefix, exactKey, list) && Elements(r.value.0) == TargetSet(prefix, exactKey, list))
  {
    hide Walk, Listable, Kept, Where, VersionsIn, MarkersIn, ItemOk, Acceptable, NoDuplicates, ValidIdentity, InTarget,
         Position, Under, TargetSet,
         PageKept, Elements, AllInTarget;
    var answer, stop := s3.ListPage(prefix, marker);
    end := stop;
    if answer == None {
      return Err(ListInvalid), end;
    }
    ghost var honest := s3.faults == old(s3.faults) && list == Under(s3.contents, prefix)
                        && Walk(prefix, exactKey, list, start, marker, seen, results)
                            && start + PAGE_SIZE <= MAX_PAGES * PAGE_SIZE;
    if honest {
      WalkStarts(list, start, marker, prefix, exactKey, seen, results);
      if Listable(prefix, exactKey, list) {
        PageAccepted(s3.isMarker, prefix, exactKey, list, start, end, marker, seen, results);
      }
    }
    var versions := AddItems(prefix, exactKey, results, answer.value.versions);
    if versions.Err? {
      return Err(versions.error), end;
    }
    var all := AddItems(prefix, exactKey, versions.value, answer.value.deleteMarkers);
    if all.Err? {
      return Err(all.error), end;
    }
    TargetsJoin(prefix, exactKey, results, Kept(prefix, exactKey, answer.value.versions));
    TargetsJoin(prefix, exactKey, versions.value, Kept(prefix, exactKey, answer.value.deleteMarkers));
    if honest {
      WalkPage(s3.isMarker, prefix, exactKey, list, start, end, marker, seen, results, all.value);
    }
    if !answer.value.truncated {
      return Ok((all.value, None)), end;
    }
    if answer.value.next.None? || !ValidIdentity(prefix, answer.value.next.value) {
      return Err(ListInvalid), end;
    }
    return Ok((all.value, answer.value.next)), end;
  }

  lemma TargetsJoin(prefix: string, exactKey: bool, a: seq<Identity>, b: seq<Identity>)
    requires AllInTarget(prefix, exactKey, a)
    requires forall id :: id in b ==> InTarget(prefix, exactKey, id) && ValidIdentity(prefix, id)
    ensures AllInTarget(prefix, exactKey, a + b)
  {
    hide InTarget, ValidIdentity;
  }

  lemma WalkBegins(prefix: string, exactKey: bool, contents: seq<Identity>)
    requires NoDuplicates(contents)
    ensures Walk(prefix, exactKey, Under(contents, prefix), 0, None, {}, [])
    ensures NoDuplicates([]) && AllInTarget(prefix, exactKey, [])
  {
    UnderElements(contents, prefix);
  }

  /** `list_object_versions_exact`: it ends within a hundred pages whatever the bucket answers, and returns
      different identities of the target. From an honest bucket the result is complete, and the bucket holds
      nothing that must be refused; of such a bucket the listing fails only if it takes more than a hundred
      pages, and never if all its pages are full. */
  method ListExact(s3: Bucket, prefix: string, exactKey: bool, isExecution: string -> bool)
    returns (r: Result<seq<Identity>, ListError>, ghost pages: nat)
    requires s3.Valid()
    modifies s3`contents, s3`faults, s3`short
    ensures s3.Valid() && s3.faults >= old(s3.faults) && s3.short >= old(s3.short) && pages <= MAX_PAGES
    ensures r.Ok? ==> NoDuplicates(r.value) && |r.value| <= MAX_VERSIONS && TargetOk(prefix, exactKey, isExecution)
    ensures r.Ok? ==> AllInTarget(prefix, exactKey, r.value)
    ensures s3.faults == old(s3.faults) ==>
              && s3.contents == old(s3.contents)
              && (r.Ok? ==>
                TargetOk(prefix, exactKey, isExecution)
                && Listable(prefix, exactKey, Under(s3.contents, prefix)))
              && (TargetOk(prefix, exactKey, isExecution) && Listable(prefix, exactKey, Under(s3.contents, prefix)) ==>
                    r.Ok? || (r == Err(BoundExceeded) && pages == MAX_PAGES && s3.short > old(s3.short)))
              && (r.Ok? ==> Elements(r.value) == TargetSet(prefix, exactKey, Under(s3.contents, prefix)))
  {
    hide Walk, Listable, Kept, Where, VersionsIn, MarkersIn, ItemOk, Acceptable, NoDuplicates, ValidIdentity, InTarget,
         TargetOk, Position, Under, TargetSet,
         PageKept, Elements, AllInTarget, PageOf, MayEnd;
    pages := 0;
    if !TargetOk(prefix, exactKey, isExecution) {
      return Err(TargetInvalid), pages;
    }
    var results: seq<Identity>, marker: Option<Identity>, seen: set<Option<Identity>> := [], None, {};
    ghost var list := Under(s3.contents, prefix);
    ghost var start: nat := 0;
    WalkBegins(prefix, exactKey, s3.contents);
    for page := 0 to MAX_PAGES
      invariant s3.Valid() && s3.faults >= old(s3.faults) && s3.short >= old(s3.short) && pages == page <= MAX_PAGES
      invariant NoDuplicates(results) && |results| <= MAX_VERSIONS
      invariant AllInTarget(prefix, exactKey, results)
      invariant s3.faults == old(s3.faults) ==>
                  && s3.contents == old(s3.contents) && start <= page * PAGE_SIZE
                  && (s3.short == old(s3.short) ==> start == page * PAGE_SIZE)
                  && Walk(prefix, exactKey, list, start, marker, seen, results)
    {
      if s3.faults == old(s3.faults) {
        WalkStarts(list, start, marker, prefix, exactKey, seen, results);
      }
      if marker in seen {
        return Err(NotAdvancing), pages;
      }
      var more, end := ReadPage(s3, prefix, exactKey, marker, results, list, start, seen);
      pages := pages + 1;
      if more.Err? {
        return Err(more.error), pages;
      }
      results := more.value.0;
      if more.value.1.None? {
        return Ok(results), pages;
      }
      seen := seen + {marker};
      marker := more.value.1;
      start := end;
    }
    if s3.faults == old(s3.faults) && s3.short == old(s3.short) {
      TooMany(prefix, exactKey, list, start, marker, seen, results);
    }
    return Err(BoundExceeded), pages;
  }

  lemma TooMany(prefix: string, exactKey: bool, list: seq<Identity>, start: nat, marker: Option<Identity>,
                seen: set<Option<Identity>>, results: seq<Identity>)
    requires Walk(prefix, exactKey, list, start, marker, seen, results) && start == MAX_PAGES * PAGE_SIZE
    ensures !Listable(prefix, exactKey, list)
  {
  }

  lemma WalkPage(isMarker: Identity -> bool, prefix: string, exactKey: bool, list: seq<Identity>, start: nat, end: nat,
                 marker: Option<Identity>, seen: set<Option<Identity>>, before: seq<Identity>, results: seq<Identity>)
    requires Walk(prefix, exactKey, list, start, marker, seen, before) && MayEnd(list, start, end)
    requires var v, d := VersionsIn(isMarker, list[start..end]), MarkersIn(isMarker, list[start..end]);
             && Acceptable(prefix, exactKey, before, v)
             && Acceptable(prefix, exactKey, before + Kept(prefix, exactKey, v), d)
             && results == before + Kept(prefix, exactKey, v) + Kept(prefix, exactKey, d)
    requires NoDuplicates(results) && |results| <= MAX_VERSIONS && start + PAGE_SIZE <= MAX_PAGES * PAGE_SIZE
    ensures end < |list| ==>
              && start < end && ValidIdentity(prefix, list[end - 1])
              && Walk(prefix, exactKey, list, end, Some(list[end - 1]), seen + {marker}, results)
    ensures end == |list| ==> Listable(prefix, exactKey, list) && Elements(results) == TargetSet(prefix, exactKey, list)
  {
    WalkOn(isMarker, prefix, exactKey, list, start, end, marker, seen, before);
    hide Where, VersionsIn, MarkersIn, Kept, ItemOk, ValidIdentity, Acceptable, Listable, Walk, NoDuplicates,
         TargetSet, Elements;
    assert results == before + PageKept(isMarker, prefix, exactKey, list[start..end]);
    hide PageKept;
    if end == |list| {
      assert list[..end] == list;
      WalkEnd(prefix, exactKey, list, results);
    }
  }

  lemma WalkEnd(prefix: string, exactKey: bool, list: seq<Identity>, results: seq<Identity>)
    requires Elements(results) == TargetSet(prefix, exactKey, list) && NoDuplicates(results)
             && |results| <= MAX_VERSIONS
    requires (forall id :: id in list ==> ItemOk(prefix, exactKey, id)) && |list| <= MAX_PAGES * PAGE_SIZE
    ensures Listable(prefix, exactKey, list)
  {
    hide ItemOk;
    Cardinality(results);
  }

  // Purge

  function Flat(chunks: seq<seq<Identity>>): seq<Identity> {
    if chunks == [] then [] else Flat(chunks[..|chunks| - 1]) + chunks[|chunks| - 1]
  }

  /** Deletion requests that work through `listed` from its start, none empty or too large. */
  ghost predicate Partition(chunks: seq<seq<Identity>>, listed: seq<Identity>) {
    Flat(chunks) <= listed && forall c :: c in chunks ==> 1 <= |c| <= MAX_DELETE
  }

  /** The bucket without some of its versions. */
  ghost predicate Without(contents: seq<Identity>, before: seq<Identity>, removed: seq<Identity>) {
    forall id :: id in contents <==> id in before && id !in removed
  }

  lemma WithoutMore(contents: seq<Identity>, before: seq<Identity>, removed: seq<Identity>, chunk: seq<Identity>)
    requires Without(contents, before, removed)
    ensures Without(Where(contents, id => id !in chunk), before, removed + chunk)
  {
    WhereElements(contents, id => id !in chunk);
  }

  lemma UnderElements(contents: seq<Identity>, prefix: string)
    ensures forall id :: id in Under(contents, prefix) <==> id in contents && prefix <= id.key
    ensures NoDuplicates(contents) ==> NoDuplicates(Under(contents, prefix))
  {
    WhereElements(contents, (id: Identity) => prefix <= id.key);
  }

  /** The target of an honestly purged bucket can be listed again, and is empty. */
  lemma PurgedIsEmpty(prefix: string, exactKey: bool, contents: seq<Identity>, before: seq<Identity>,
                      removed: seq<Identity>)
    requires NoDuplicates(contents) && NoDuplicates(before) && Without(contents, before, removed)
    requires Listable(prefix, exactKey, Under(before, prefix))
             && Elements(removed) == TargetSet(prefix, exactKey, Under(before, prefix))
    ensures Listable(prefix, exactKey, Under(contents, prefix))
            && TargetSet(prefix, exactKey, Under(contents, prefix)) == {}
  {
    var now, was := Under(contents, prefix), Under(before, prefix);
    UnderElements(contents, prefix);
    UnderElements(before, prefix);
    hide Under, ItemOk;
    forall id ensures id in now <==> id in was && id !in removed {
    }
    assert forall id :: id in removed <==> id in Elements(removed);
    Cardinality(now);
    Cardinality(was);
    Collections.SubsetSize(Elements(now), Elements(was));
  }

  lemma FlatMore(chunks: seq<seq<Identity>>, chunk: seq<Identity>)
    ensures Flat(chunks + [chunk]) == Flat(chunks) + chunk
  {
    assert (chunks + [chunk])[..|chunks|] == chunks;
  }

  lemma PartitionMore(chunks: seq<seq<Identity>>, listed: seq<Identity>, offset: nat, end: nat)
    requires offset < end <= |listed| && end <= offset + MAX_DELETE
    requires Partition(chunks, listed) && Flat(chunks) == listed[..offset] && NoDuplicates(listed)
    ensures Partition(chunks + [listed[offset..end]], listed) && Flat(chunks + [listed[offset..end]]) == listed[..end]
    ensures |listed[offset..end]| == |Elements(listed[offset..end])|
  {
    FlatMore(chunks, listed[offset..end]);
    assert listed[..end] == listed[..offset] + listed[offset..end];
    Cardinality(listed[offset..end]);
  }

  /** Whether the answer to a deletion names exactly the requested identities. */
  predicate Confirms(deleted: Option<seq<Identity>>, chunk: seq<Identity>) {
    deleted.Some? && |deleted.value| == |Elements(deleted.value)| && Elements(deleted.value) == Elements(chunk)
  }

  /** `purge_object_versions_exact`: it requests the deletion of listed identities of the target only, in
      chunks that partition the list, and returns normally only after the target was listed again as empty.
      An honest bucket loses exactly the target; `pages` is how many the last listing took. */
  method PurgeExact(s3: Bucket, prefix: string, exactKey: bool, isExecution: string -> bool)
    returns (r: Result<bool, ListError>, ghost listed: seq<Identity>, ghost chunks: seq<seq<Identity>>,
             ghost relisted: nat, ghost pages: nat)
    requires s3.Valid()
    modifies s3`contents, s3`faults, s3`short, s3`requests
    ensures s3.Valid() && old(s3.faults) <= relisted <= s3.faults
    ensures s3.requests == old(s3.requests) + chunks && Partition(chunks, listed)
    ensures NoDuplicates(listed) && AllInTarget(prefix, exactKey, listed)
    ensures r.Ok? ==> TargetOk(prefix, exactKey, isExecution) && Flat(chunks) == listed
    ensures r.Ok? && relisted == s3.faults ==> forall id :: id in s3.contents ==> !InTarget(prefix, exactKey, id)
    ensures s3.faults == old(s3.faults) ==>
              && Without(s3.contents, old(s3.contents), Flat(chunks))
              && (r.Ok? ==>
                TargetOk(prefix, exactKey, isExecution)
                && Listable(prefix, exactKey, Under(old(s3.contents), prefix)))
              && (TargetOk(prefix, exactKey, isExecution)
                  && Listable(prefix, exactKey, Under(old(s3.contents), prefix)) ==>
                    r.Ok? || (r == Err(BoundExceeded) && pages == MAX_PAGES && s3.short > old(s3.short)))
              && (r.Ok? ==> Elements(listed) == TargetSet(prefix, exactKey, Under(old(s3.contents), prefix))
                            && Without(s3.contents, old(s3.contents), listed))
  {
    hide Walk, Listable, Kept, Where, VersionsIn, MarkersIn, ItemOk, Acceptable, NoDuplicates, ValidIdentity, InTarget,
         TargetOk, Position, Under, TargetSet,
         PageKept, Elements, AllInTarget, PageOf, MayEnd, Partition, Flat, Without;
    listed, chunks, relisted, pages := [], [], s3.faults, 0;
    NothingInTarget(prefix, exactKey);
    NothingRemoved(s3.contents);
    var versions, first := ListExact(s3, prefix, exactKey, isExecution);
    relisted, pages := s3.faults, first;
    if versions.Err? {
      return Err(versions.error), listed, chunks, relisted, pages;
    }
    listed := versions.value;
    ghost var listing := s3.faults;
    var offset := 0;
    while offset < |versions.value|
      invariant 0 <= offset <= |listed| && s3.Valid() && s3.faults >= listing && s3.short >= old(s3.short)
      invariant s3.requests == old(s3.requests) + chunks && Flat(chunks) == listed[..offset]
                && Partition(chunks, listed)
      invariant s3.faults == old(s3.faults) ==> Without(s3.contents, old(s3.contents), listed[..offset])
    {
      var end := if offset + MAX_DELETE < |versions.value| then offset + MAX_DELETE else |versions.value|;
      var chunk := versions.value[offset..end];
      FlatMore(chunks, chunk);
      PartitionMore(chunks, listed, offset, end);
      if s3.faults == old(s3.faults) {
        WithoutMore(s3.contents, old(s3.contents), listed[..offset], chunk);
      }
      assert listed[..offset] + chunk == listed[..end];
      var deleted := s3.DeleteObjects(chunk);
      chunks := chunks + [chunk];
      relisted := s3.faults;
      if !Confirms(deleted, chunk) {
        return Err(DeletionFailed), listed, chunks, relisted, pages;
      }
      offset := end;
    }
    assert listed[..offset] == listed;
    if s3.faults == old(s3.faults) {
      PurgedIsEmpty(prefix, exactKey, s3.contents, old(s3.contents), listed);
    }
    relisted := s3.faults;
    var remaining, last := ListExact(s3, prefix, exactKey, isExecution);
    pages := last;
    if remaining.Err? {
      return Err(remaining.error), listed, chunks, relisted, pages;
    }
    if remaining.value != [] {
      NonEmpty(remaining.value);
      return Err(Remaining), listed, chunks, relisted, pages;
    }
    if relisted == s3.faults {
      NoneLeft(prefix, exactKey, s3.contents);
    }
    return Ok(true), listed, chunks, relisted, pages;
  }

  lemma NothingInTarget(prefix: string, exactKey: bool)
    ensures AllInTarget(prefix, exactKey, []) && NoDuplicates([])
    ensures Elements([]) == {} && Flat([]) == [] && forall listed :: Partition([], listed)
  {
  }

  lemma NothingRemoved(contents: seq<Identity>)
    ensures Without(contents, contents, [])
  {
  }

  lemma NonEmpty(ids: seq<Identity>)
    requires ids != []
    ensures Elements(ids) != {}
  {
    assert ids[0] in Elements(ids);
  }

  lemma NoneLeft(prefix: string, exactKey: bool, contents: seq<Identity>)
    requires TargetSet(prefix, exactKey, Under(contents, prefix)) == {}
    ensures forall id :: id in contents ==> !InTarget(prefix, exactKey, id)
  {
    UnderElements(contents, prefix);
    forall id | id in contents ensures !InTarget(prefix, exactKey, id) {
      assert id !in TargetSet(prefix, exactKey, Under(contents, prefix));
    }
  }
}
