/** Review of a nested CREATE change set before anything executes (qualification/deployment_review.py).

    AWS is adversarial: every answer is arbitrary, and two reads of one change set need not agree. */
module DeploymentReview {
  import opened Wrappers

  const CATALOG_SIZE := 10
  const MAX_CHANGE_RECORDS := 2000
  const MAX_HIERARCHY_DEPTH := 8
  const STACK_TYPE := "AWS::CloudFormation::Stack"

  datatype Resource = Resource(kind: string, url: Option<string>, condition: string)

  /** A template: its resources and conditions, and all the rest of its text. */
  datatype Template = Template(resources: map<string, Resource>, conditions: set<string>, rest: string)

  datatype SealedTemplate = SealedTemplate(url: string, template: Template)

  type Catalog = map<string, Template>

  /** One record of a change set; absent identities are empty. */
  datatype Change = Change(isResource: bool, logicalId: string, kind: string, action: string, childId: string,
                           physicalId: string, replacement: string, policyAction: string, scoped: bool, detailed: bool)

  datatype Description = Description(changeSetId: string, stackId: string, status: string, executionStatus: string,
                                     includesNested: bool, parentId: string, rootId: string, changes: seq<Change>)

  datatype StackRecord = StackRecord(stackId: string, status: string, parentId: string, rootId: string)

  datatype Node = Node(changeSet: string, stack: string, url: string, parent: Option<string>, depth: nat)

  datatype ReviewError =
    | NotCreate | IdentityInvalid | CatalogInvalid | ReadInvalid | StackInvalid | TooDeep
    | HierarchyDuplicated | Unsealed | LinkageInvalid | TemplateDiffers | InventoryInvalid | MissingOrOrphaned

  /** Parsers of ARNs and URLs, and the comparison of the root with the request that created it. */
  datatype Env = Env(
    changeSetIdentity: string -> Option<string>,
    stackIdentity: string -> Option<string>,
    isTemplateUrl: string -> bool,
    invocationMatches: (Description, StackRecord) -> bool)

  // Nested templates

  predicate LiteralUrls(t: Template) {
    forall k :: k in t.resources && t.resources[k].kind == STACK_TYPE ==> t.resources[k].url.Some?
  }

  /** `_nested_template_urls`: the nested stacks of a template. */
  function Nested(t: Template): map<string, string> {
    map k | k in t.resources && t.resources[k].kind == STACK_TYPE
        && t.resources[k].url.Some? :: t.resources[k].url.value
  }

  // The changes of one change set

  /** The checks on one record of a CREATE change set: it only adds a resource of the template, or is a
      conditional resource that execution can only add or omit. */
  predicate ChangeOk(env: Env, t: Template, c: Change) {
    && c.isResource && c.logicalId in t.resources && t.resources[c.logicalId].kind == c.kind
    && if c.action == "Dynamic" then
         && c.logicalId !in Nested(t)
         && t.resources[c.logicalId].condition != "" && t.resources[c.logicalId].condition in t.conditions
         && c.childId == "" && c.physicalId == "" && c.replacement == "" && c.policyAction == "" && !c.scoped
             && !c.detailed
       else
         && c.action == "Add"
         && if c.logicalId in Nested(t) then c.kind == STACK_TYPE && env.changeSetIdentity(c.childId).Some?
            else c.kind != STACK_TYPE && c.childId == "" && c.physicalId == ""
  }

  predicate DistinctIds(changes: seq<Change>) {
    forall i, j :: 0 <= i < j < |changes| ==> changes[i].logicalId != changes[j].logicalId
  }

  predicate HasChild(changes: seq<Change>, id: string, child: string) {
    exists i :: 0 <= i < |changes| && changes[i].logicalId == id && changes[i].childId == child
  }

  predicate DistinctChildren(t: Template, changes: seq<Change>) {
    forall i, j :: 0 <= i < j < |changes| && changes[i].logicalId in Nested(t) && changes[j].logicalId in Nested(t) ==>
      changes[i].childId != changes[j].childId
  }

  function Ids(changes: seq<Change>): set<string> {
    set c | c in changes :: c.logicalId
  }

  /** Every record is safe and none is repeated. */
  predicate Readable(env: Env, t: Template, changes: seq<Change>) {
    (forall c :: c in changes ==> ChangeOk(env, t, c)) && DistinctIds(changes)
  }

  /** And each nested stack has exactly one child change set, its own. */
  predicate Inventory(env: Env, t: Template, changes: seq<Change>) {
    Readable(env, t, changes) && DistinctChildren(t, changes) && Nested(t).Keys <= Ids(changes)
  }

  /** `_nested_change_sets`. */
  method NestedChangeSets(env: Env, t: Template, changes: seq<Change>)
    returns (r: Result<map<string, (string, string)>, ReviewError>)
    ensures r.Ok? <==> Inventory(env, t, changes)
    ensures r.Ok? ==> r.value.Keys == Nested(t).Keys
    ensures r.Ok? ==> Chosen(t, changes, r.value)
  {
    hide ChangeOk, Nested, Readable, Chosen, DistinctIds, DistinctChildren, Ids, Duplicated;
    var selected: map<string, (string, string)>, observed: set<string> := map[], {};
    EmptyIsReadable(env, t);
    for i := 0 to |changes|
      invariant Readable(env, t, changes[..i]) && observed == Ids(changes[..i])
      invariant Chosen(t, changes[..i], selected) && selected.Keys == observed * Nested(t).Keys
    {
      var c := changes[i];
      assert changes[..i] + [c] == changes[..i + 1];
      ReadableMore(env, t, changes[..i], c);
      if c.logicalId in observed || !ChangeOk(env, t, c) {
        PrefixReadable(env, t, changes, i + 1);
        return Err(InventoryInvalid);
      }
      ChosenMore(t, changes[..i], selected, c);
      observed := observed + {c.logicalId};
      if c.logicalId in Nested(t) {
        selected := selected[c.logicalId := (c.childId, c.physicalId)];
      }
    }
    assert changes[..|changes|] == changes;
    if selected.Keys != Nested(t).Keys {
      return Err(InventoryInvalid);
    }
    DuplicatedIff(env, t, changes, selected);
    return if Duplicated(selected) then Err(InventoryInvalid) else Ok(selected);
  }

  lemma EmptyIsReadable(env: Env, t: Template)
    ensures Readable(env, t, []) && Ids([]) == {} && Chosen(t, [], map[])
  {
  }

  lemma ReadableMore(env: Env, t: Template, changes: seq<Change>, c: Change)
    ensures Readable(env, t, changes + [c]) <==>
              Readable(env, t, changes) && ChangeOk(env, t, c)
              && c.logicalId !in Ids(changes)
    ensures Ids(changes + [c]) == Ids(changes) + {c.logicalId}
  {
    hide ChangeOk;
    var all := changes + [c];
    assert forall x :: x in all <==> x in changes || x == c;
    if Readable(env, t, all) {
      assert forall i :: 0 <= i < |changes| ==> all[i] == changes[i];
      forall x | x in changes ensures x.logicalId != c.logicalId {
        var i :| 0 <= i < |changes| && changes[i] == x;
        assert all[i].logicalId != all[|changes|].logicalId;
      }
    }
  }

  lemma PrefixReadable(env: Env, t: Template, changes: seq<Change>, k: nat)
    requires k <= |changes|
    ensures Readable(env, t, changes) ==> Readable(env, t, changes[..k])
  {
    hide ChangeOk;
  }

  lemma ChosenMore(t: Template, changes: seq<Change>, selected: map<string, (string, string)>, c: Change)
    requires Chosen(t, changes, selected) && c.logicalId !in Ids(changes)
    ensures Chosen(t, changes + [c], if c.logicalId in Nested(t)
                   then selected[c.logicalId := (c.childId, c.physicalId)] else selected)
  {
    hide Nested;
    forall i | 0 <= i < |changes| ensures changes[i].logicalId != c.logicalId {
      assert changes[i] in changes;
    }
  }

  predicate Chosen(t: Template, changes: seq<Change>, selected: map<string, (string, string)>) {
    forall i :: 0 <= i < |changes| && changes[i].logicalId in Nested(t) ==>
      changes[i].logicalId in selected && selected[changes[i].logicalId] == (changes[i].childId, changes[i].physicalId)
  }

  predicate Duplicated(selected: map<string, (string, string)>) {
    exists a, b :: a in selected && b in selected && a != b && selected[a].0 == selected[b].0
  }

  lemma RowOf(changes: seq<Change>, id: string) returns (i: nat)
    requires id in Ids(changes)
    ensures i < |changes| && changes[i].logicalId == id
  {
    var c :| c in changes && c.logicalId == id;
    i :| 0 <= i < |changes| && changes[i] == c;
  }

  lemma DuplicatedIff(env: Env, t: Template, changes: seq<Change>, selected: map<string, (string, string)>)
    requires Readable(env, t, changes) && Chosen(t, changes, selected)
             && selected.Keys == Nested(t).Keys <= Ids(changes)
    ensures Duplicated(selected) <==> !DistinctChildren(t, changes)
  {
    hide Nested, ChangeOk, Ids;
    if Duplicated(selected) {
      var a, b :| a in selected && b in selected && a != b && selected[a].0 == selected[b].0;
      var i := RowOf(changes, a);
      var j := RowOf(changes, b);
      hide DistinctIds;
      assert changes[i].childId == changes[j].childId;
      assert i < j || j < i;
    }
    if !DistinctChildren(t, changes) {
      var i, j :| 0 <= i < j < |changes| && changes[i].logicalId in Nested(t) && changes[j].logicalId in Nested(t)
                  && changes[i].childId == changes[j].childId;
      var a, b := changes[i].logicalId, changes[j].logicalId;
      assert a in selected && b in selected && a != b && selected[a].0 == selected[b].0;
    }
  }

  // The reviewed hierarchy

  /** What the description read for a node must say. */
  predicate Linked(root: string, n: Node, d: Description) {
    && d.changeSetId == n.changeSet && d.stackId == n.stack && d.status == "CREATE_COMPLETE" && d.includesNested
    && match n.parent
       case None => d.executionStatus == "AVAILABLE" && d.parentId == "" && d.rootId == ""
       case Some(p) => d.executionStatus == "UNAVAILABLE" && d.parentId == p && d.rootId == root
  }

  predicate IsReviewStack(s: StackRecord, stack: string, parent: Option<string>, root: string) {
    && s.stackId == stack && s.status == "REVIEW_IN_PROGRESS"
    && match parent
       case None => s.parentId == "" && s.rootId == ""
       case Some(p) => s.parentId == p && s.rootId == root
  }

  /** A nested stack `id` of node `p`, realised by node `n`: the description read for `p` names the change set of
      `n`, and the sealed template of `p` names its template. */
  predicate Edge(catalog: Catalog, p: Node, d: Description, id: string, n: Node) {
    && p.url in catalog && id in Nested(catalog[p.url]) && Nested(catalog[p.url])[id] == n.url
    && n.parent == Some(p.changeSet) && n.depth == p.depth + 1
    && HasChild(d.changes, id, n.changeSet)
  }

  function NodeUrls(h: seq<Node>): set<string> {
    set n | n in h :: n.url
  }

  function NodeChangeSets(h: seq<Node>): set<string> {
    set n | n in h :: n.changeSet
  }

  function NodeStacks(h: seq<Node>): set<string> {
    set n | n in h :: n.stack
  }

  predicate DistinctNodes(h: seq<Node>) {
    forall i, j :: 0 <= i < j < |h| ==>
      h[i].url != h[j].url && h[i].changeSet != h[j].changeSet
      && h[i].stack != h[j].stack
  }

  /** Node `i` of `all` is a child of an earlier reviewed node. */
  ghost predicate HasParent(catalog: Catalog, h: seq<Node>, seen: seq<Description>, n: Node, before: nat) {
    exists p, id :: 0 <= p < before && p < |h| && p < |seen| && Edge(catalog, h[p], seen[p], id, n)
  }

  ghost predicate HasNode(catalog: Catalog, p: Node, d: Description, id: string, all: seq<Node>, after: nat) {
    exists j :: after < j < |all| && Edge(catalog, p, d, id, all[j])
  }

  /** Node `i` was reviewed against its sealed template and its links. */
  predicate NodeReviewed(env: Env, catalog: Catalog, root: Node, n: Node, d: Description) {
    && n.url in catalog && LiteralUrls(catalog[n.url]) && Linked(root.changeSet, n, d)
    && Inventory(env, catalog[n.url], d.changes) && n.depth <= MAX_HIERARCHY_DEPTH
    && env.changeSetIdentity(n.changeSet) == env.changeSetIdentity(root.changeSet)
    && env.stackIdentity(n.stack) == env.stackIdentity(root.stack)
  }

  /** Everything an accepted review establishes. `seen` holds the description each node was reviewed on. */
  ghost predicate Accepted(env: Env, catalog: Catalog, root: Node, h: seq<Node>, seen: seq<Description>) {
    && |h| == |seen| == CATALOG_SIZE && h[0] == root && root.parent == None && root.depth == 0
    && DistinctNodes(h) && NodeUrls(h) == catalog.Keys
    && (forall i :: 0 <= i < |h| ==> NodeReviewed(env, catalog, root, h[i], seen[i]))
    && (forall i :: 1 <= i < |h| ==> HasParent(catalog, h, seen, h[i], i))
    && (forall p, id ::
      0 <= p < |h| && h[p].url in catalog && id in Nested(catalog[h[p].url])
      ==> HasNode(catalog, h[p], seen[p], id, h, p))
  }

  /** What AWS holds. */
  datatype World = World(describe: string -> Option<Description>, template: string -> Option<Template>,
                         stack: string -> Option<StackRecord>)

  /** One answer that was read. */
  datatype Answer =
    | Described(changeSet: string, description: Description)
    | Proposed(changeSet: string, template: Template)
    | StackRead(stack: string, record: StackRecord)

  /** AWS: each answer is either the truth or a fault, which may be anything. */
  class Aws {
    const world: World
    ghost var faults: nat
    /** The answers the present review has been given. */
    ghost var given: set<Answer>

    method DescribeChangeSet(id: string) returns (r: Option<Description>)
      modifies this
      ensures faults >= old(faults) && (faults == old(faults) ==> r == world.describe(id))
      ensures given == old(given) + if r.Some? then {Described(id, r.value)} else {}
    {
      var fault: bool := *;
      r := world.describe(id);
      if fault {
        faults := faults + 1;
        r := *;
      }
      given := given + if r.Some? then {Described(id, r.value)} else {};
    }

    method GetTemplate(id: string) returns (r: Option<Template>)
      modifies this
      ensures faults >= old(faults) && (faults == old(faults) ==> r == world.template(id))
      ensures given == old(given) + if r.Some? then {Proposed(id, r.value)} else {}
    {
      var fault: bool := *;
      r := world.template(id);
      if fault {
        faults := faults + 1;
        r := *;
      }
      given := given + if r.Some? then {Proposed(id, r.value)} else {};
    }

    method DescribeStack(id: string) returns (r: Option<StackRecord>)
      modifies this
      ensures faults >= old(faults) && (faults == old(faults) ==> r == world.stack(id))
      ensures given == old(given) + if r.Some? then {StackRead(id, r.value)} else {}
    {
      var fault: bool := *;
      r := world.stack(id);
      if fault {
        faults := faults + 1;
        r := *;
      }
      given := given + if r.Some? then {StackRead(id, r.value)} else {};
    }
  }

  // What was read

  /** The stack of `n` was read as one under review, nested in the stack of `p`. */
  ghost predicate StackUnder(given: set<Answer>, root: Node, p: Node, n: Node) {
    n.parent == Some(p.changeSet)
    && exists s :: StackRead(n.stack, s) in given && IsReviewStack(s, n.stack, Some(p.stack), root.stack)
  }

  ghost predicate HasStackParent(given: set<Answer>, root: Node, h: seq<Node>, n: Node, before: nat) {
    exists p :: 0 <= p < before && p < |h| && StackUnder(given, root, h[p], n)
  }

  /** The description a node was reviewed on and its template were read. */
  predicate NodeWasRead(given: set<Answer>, catalog: Catalog, n: Node, d: Description) {
    n.url in catalog && Described(n.changeSet, d) in given && Proposed(n.changeSet, catalog[n.url]) in given
  }

  /** The stack of the root was read as one under review without a parent, and fits the request that created it. */
  ghost predicate RootWasRead(env: Env, given: set<Answer>, root: Node, d: Description) {
    exists s :: StackRead(root.stack, s) in given && IsReviewStack(s, root.stack, None, root.stack)
        && env.invocationMatches(d, s)
  }

  /** What the answers read so far show of the reviewed nodes `h` and of all that are queued. */
  ghost predicate Evidence(env: Env, given: set<Answer>, catalog: Catalog, root: Node, h: seq<Node>,
                           seen: seq<Description>, all: seq<Node>) {
    && |h| == |seen| && (h != [] ==> RootWasRead(env, given, root, seen[0]))
    && (forall i :: 0 <= i < |h| ==> NodeWasRead(given, catalog, h[i], seen[i]))
    && (forall i :: 1 <= i < |all| ==> HasStackParent(given, root, h, all[i], i))
  }

  lemma EvidenceStays(env: Env, given: set<Answer>, more: set<Answer>, catalog: Catalog, root: Node, h: seq<Node>,
                      seen: seq<Description>, all: seq<Node>)
    requires Evidence(env, given, catalog, root, h, seen, all) && given <= more
    ensures Evidence(env, more, catalog, root, h, seen, all)
  {
    hide IsReviewStack;
    forall i | 1 <= i < |all| ensures HasStackParent(more, root, h, all[i], i) {
      assert HasStackParent(given, root, h, all[i], i);
      var p :| 0 <= p < i && p < |h| && StackUnder(given, root, h[p], all[i]);
      assert StackUnder(more, root, h[p], all[i]);
    }
    forall i | 0 <= i < |h| ensures NodeWasRead(more, catalog, h[i], seen[i]) {
      assert NodeWasRead(given, catalog, h[i], seen[i]);
    }
  }

  lemma EvidenceNode(env: Env, given: set<Answer>, catalog: Catalog, root: Node, h: seq<Node>, seen: seq<Description>,
                     all: seq<Node>, n: Node, d: Description)
    requires Evidence(env, given, catalog, root, h, seen, all) && NodeWasRead(given, catalog, n, d)
    requires h == [] ==> RootWasRead(env, given, root, d)
    ensures Evidence(env, given, catalog, root, h + [n], seen + [d], all)
  {
    hide NodeWasRead, StackUnder, RootWasRead;
    forall i | 1 <= i < |all| ensures HasStackParent(given, root, h + [n], all[i], i) {
      assert HasStackParent(given, root, h, all[i], i);
      var p :| 0 <= p < i && p < |h| && StackUnder(given, root, h[p], all[i]);
      assert (h + [n])[p] == h[p];
    }
  }

  lemma EvidenceChild(env: Env, given: set<Answer>, catalog: Catalog, root: Node, h: seq<Node>, seen: seq<Description>,
                      all: seq<Node>, child: Node)
    requires Evidence(env, given, catalog, root, h, seen, all) && 0 < |h| <= |all|
    requires StackUnder(given, root, h[|h| - 1], child)
    ensures Evidence(env, given, catalog, root, h, seen, all + [child])
  {
    hide NodeWasRead, StackUnder, RootWasRead;
    forall i | 1 <= i < |all + [child]| ensures HasStackParent(given, root, h, (all + [child])[i], i) {
      if i < |all| {
        assert HasStackParent(given, root, h, all[i], i);
      }
    }
  }

  lemma EvidenceBegins(env: Env, given: set<Answer>, catalog: Catalog, root: Node)
    ensures Evidence(env, given, catalog, root, [], [], [] + [root])
  {
  }

  // A hierarchy that AWS really holds

  /** The stack record and the physical identity that are read when child `n` is found. */
  predicate ChildRead(w: World, rootStack: string, p: Node, d: Description, id: string, n: Node) {
    && w.stack(n.stack).Some? && IsReviewStack(w.stack(n.stack).value, n.stack, Some(p.stack), rootStack)
    && forall c :: c in d.changes && c.logicalId == id ==> c.physicalId == "" || c.physicalId == n.stack
  }

  predicate NodeRead(w: World, catalog: Catalog, n: Node, d: Description) {
    n.url in catalog && w.describe(n.changeSet) == Some(d) && |d.changes| <= MAX_CHANGE_RECORDS
    && w.template(n.changeSet) == Some(catalog[n.url])
  }

  datatype Plan = Plan(catalog: Catalog, nodes: seq<Node>, seen: seq<Description>)

  ghost predicate ChildrenRead(w: World, catalog: Catalog, root: Node, h: seq<Node>, seen: seq<Description>) {
    forall p, j, id :: 0 <= p < |h| && p < |seen| && 0 <= j < |h| && Edge(catalog, h[p], seen[p], id, h[j]) ==>
      ChildRead(w, root.stack, h[p], seen[p], id, h[j])
  }

  /** AWS holds an acceptable hierarchy under the root. */
  ghost predicate Planned(env: Env, w: World, root: Node, plan: Plan) {
    && Accepted(env, plan.catalog, root, plan.nodes, plan.seen)
    && (forall i :: 0 <= i < |plan.nodes| ==> NodeRead(w, plan.catalog, plan.nodes[i], plan.seen[i]))
    && w.stack(root.stack).Some? && IsReviewStack(w.stack(root.stack).value, root.stack, None, root.stack)
    && env.invocationMatches(plan.seen[0], w.stack(root.stack).value)
    && ChildrenRead(w, plan.catalog, root, plan.nodes, plan.seen)
  }

  predicate Different(all: seq<Node>) {
    forall i, j :: 0 <= i < j < |all| ==> all[i] != all[j]
  }

  /** The last reviewed node has no child yet among `all` for the nested stacks still pending. */
  predicate NotYet(catalog: Catalog, h: seq<Node>, seen: seq<Description>, all: seq<Node>, pending: set<string>) {
    |h| == |seen| && (h != [] ==> forall k, id ::
      0 <= k < |all| && id in pending
      ==> !Edge(catalog, h[|h| - 1], seen[|h| - 1], id, all[k]))
  }

  /** The traversal is inside the plan and has read the truth. */
  ghost predicate OnPlan(w: World, plan: Plan, h: seq<Node>, seen: seq<Description>, all: seq<Node>,
                         pending: set<string>) {
    Inside(plan.nodes, h, all) && Truthful(w, h, seen) && NotYet(plan.catalog, h, seen, all, pending)
  }

  predicate Inside(nodes: seq<Node>, h: seq<Node>, all: seq<Node>) {
    (forall n :: n in all ==> n in nodes) && Different(all) && |h| <= |all| && h == all[..|h|]
  }

  lemma InsideMore(nodes: seq<Node>, h: seq<Node>, all: seq<Node>)
    requires Inside(nodes, h, all) && |h| < |all|
    ensures Inside(nodes, h + [all[|h|]], all)
  {
    hide Different;
    assert all[..|h| + 1] == h + [all[|h|]];
  }

  predicate Truthful(w: World, h: seq<Node>, seen: seq<Description>) {
    |h| == |seen| && forall i :: 0 <= i < |h| ==> w.describe(h[i].changeSet) == Some(seen[i])
  }

  /** What the plan says of one of its nodes. */
  lemma PlanNode(env: Env, w: World, root: Node, plan: Plan, n: Node) returns (i: nat)
    requires Planned(env, w, root, plan) && n in plan.nodes
    ensures i < |plan.nodes| == |plan.seen| && plan.nodes[i] == n && (n.parent == None ==> i == 0)
    ensures NodeReviewed(env, plan.catalog, root, n, plan.seen[i]) && NodeRead(w, plan.catalog, n, plan.seen[i])
    ensures w.describe(n.changeSet) == Some(plan.seen[i])
  {
    hide NodeReviewed, HasNode, Edge, ChildrenRead, IsReviewStack, DistinctNodes, NodeUrls, HasParent;
    i :| 0 <= i < |plan.nodes| && plan.nodes[i] == n;
    if i > 0 {
      ParentIsSome(plan.catalog, plan.nodes, plan.seen, i);
    }
  }

  /** Two nodes of the plan differ in every identity. */
  lemma PlanApart(env: Env, w: World, root: Node, plan: Plan, a: Node, b: Node)
    requires Planned(env, w, root, plan) && a in plan.nodes && b in plan.nodes && a != b
    ensures a.url != b.url && a.changeSet != b.changeSet && a.stack != b.stack
  {
    hide NodeReviewed, HasNode, NodeRead, HasParent, ChildrenRead, IsReviewStack, NodeUrls;
    var i :| 0 <= i < |plan.nodes| && plan.nodes[i] == a;
    var j :| 0 <= j < |plan.nodes| && plan.nodes[j] == b;
    assert i < j || j < i;
  }

  lemma Earlier(h: seq<Node>, all: seq<Node>, m: Node)
    requires Different(all) && |h| < |all| && h == all[..|h|] && m in h
    ensures m != all[|h|] && m in all
  {
    var k :| 0 <= k < |h| && h[k] == m;
    assert all[k] == m;
  }

  /** What is true of the next node to review. */
  lemma NextOnPlan(env: Env, w: World, root: Node, plan: Plan, h: seq<Node>, seen: seq<Description>, all: seq<Node>)
    returns (i: nat)
    requires Planned(env, w, root, plan) && OnPlan(w, plan, h, seen, all, {}) && |h| < |all|
    ensures i < |plan.nodes| == |plan.seen| && plan.nodes[i] == all[|h|] && (all[|h|].parent == None ==> i == 0)
    ensures NodeReviewed(env, plan.catalog, root, all[|h|], plan.seen[i])
            && NodeRead(w, plan.catalog, all[|h|], plan.seen[i])
    ensures w.describe(all[|h|].changeSet) == Some(plan.seen[i])
    ensures all[|h|].url !in NodeUrls(h) && all[|h|].changeSet !in NodeChangeSets(h) && all[|h|].stack !in NodeStacks(h)
  {
    var n := all[|h|];
    hide Planned, NotYet, NodeReviewed, NodeRead, Different;
    i := PlanNode(env, w, root, plan, n);
    forall m | m in h ensures m.url != n.url && m.changeSet != n.changeSet && m.stack != n.stack {
      Earlier(h, all, m);
      PlanApart(env, w, root, plan, m, n);
    }
  }

  lemma ParentIsSome(catalog: Catalog, h: seq<Node>, seen: seq<Description>, i: nat)
    requires i < |h| && HasParent(catalog, h, seen, h[i], i)
    ensures h[i].parent.Some?
  {
  }

  /** A row of the change set names the child and its physical identity for a nested stack. */
  predicate HasRow(changes: seq<Change>, id: string, child: string, physical: string) {
    exists c :: c in changes && c.logicalId == id && c.childId == child && c.physicalId == physical
  }

  lemma OneRow(changes: seq<Change>, id: string, child: string, physical: string, child2: string)
    requires DistinctIds(changes) && HasRow(changes, id, child, physical) && HasChild(changes, id, child2)
    ensures child == child2
    ensures exists c :: c in changes && c.logicalId == id && c.physicalId == physical
  {
    var c :| c in changes && c.logicalId == id && c.childId == child && c.physicalId == physical;
    var i :| 0 <= i < |changes| && changes[i] == c;
    var j :| 0 <= j < |changes| && changes[j].logicalId == id && changes[j].childId == child2;
    assert i == j;
  }

  lemma NoChildYet(catalog: Catalog, h: seq<Node>, seen: seq<Description>, all: seq<Node>, n: Node, d: Description,
                   k: nat, id: string)
    requires AllHaveParents(catalog, h, seen, all) && k < |all| && all[0].parent == None
             && n.changeSet !in NodeChangeSets(h)
    ensures !Edge(catalog, n, d, id, all[k])
  {
    hide HasChild, Nested;
    if k > 0 {
      assert HasParent(catalog, h, seen, all[k], k);
      var p, other :| 0 <= p < k && p < |h| && p < |seen| && Edge(catalog, h[p], seen[p], other, all[k]);
      assert h[p] in h && h[p].changeSet in NodeChangeSets(h);
    }
  }

  lemma PushNode(w: World, plan: Plan, h: seq<Node>, seen: seq<Description>, all: seq<Node>, n: Node, d: Description)
    requires OnPlan(w, plan, h, seen, all, {}) && |h| < |all| && n == all[|h|] && w.describe(n.changeSet) == Some(d)
    requires AllHaveParents(plan.catalog, h, seen, all) && all[0].parent == None && n.changeSet !in NodeChangeSets(h)
    requires n.url in plan.catalog
    ensures OnPlan(w, plan, h + [n], seen + [d], all, Nested(plan.catalog[n.url]).Keys)
  {
    var pending := Nested(plan.catalog[n.url]).Keys;
    hide Nested, AllHaveParents, Edge, Different, NodeChangeSets, NotYet, Truthful, Inside;
    TruthfulLength(w, h, seen);
    NothingYet(plan.catalog, h, seen, all, n, d, pending);
    InsideMore(plan.nodes, h, all);
    TruthfulMore(w, h, seen, n, d);
  }

  lemma TruthfulLength(w: World, h: seq<Node>, seen: seq<Description>)
    requires Truthful(w, h, seen)
    ensures |h| == |seen|
  {
  }

  lemma TruthfulMore(w: World, h: seq<Node>, seen: seq<Description>, n: Node, d: Description)
    requires Truthful(w, h, seen) && w.describe(n.changeSet) == Some(d)
    ensures Truthful(w, h + [n], seen + [d])
  {
  }

  lemma NothingYet(catalog: Catalog, h: seq<Node>, seen: seq<Description>, all: seq<Node>, n: Node, d: Description,
                   pending: set<string>)
    requires AllHaveParents(catalog, h, seen, all) && |h| == |seen| && |all| > 0 && all[0].parent == None
    requires n.changeSet !in NodeChangeSets(h)
    ensures NotYet(catalog, h + [n], seen + [d], all, pending)
  {
    hide AllHaveParents, Edge, NodeChangeSets;
    forall k, id | 0 <= k < |all| && id in pending ensures !Edge(catalog, n, d, id, all[k]) {
      NoChildYet(catalog, h, seen, all, n, d, k, id);
    }
    assert (h + [n])[|h|] == n && (seen + [d])[|h|] == d;
  }

  /** The child that AWS holds for a nested stack still pending: what is read of it, and that it is new. */
  lemma ChildOnPlan(env: Env, w: World, root: Node, plan: Plan, h: seq<Node>, seen: seq<Description>, all: seq<Node>,
                    pending: set<string>, n: Node, d: Description, id: string, child: string,
                    physical: string) returns (c: Node)
    requires Planned(env, w, root, plan) && OnPlan(w, plan, h, seen, all, pending) && h != []
    requires n == h[|h| - 1] && d == seen[|h| - 1] && n.url in plan.catalog
             && pending <= Nested(plan.catalog[n.url]).Keys
    requires id in pending && HasRow(d.changes, id, child, physical) && env.stackIdentity(root.stack).Some?
    ensures c.changeSet == child && Edge(plan.catalog, n, d, id, c) && c.url in plan.catalog
    ensures ChildAcceptable(env, w, child, physical, n.stack, root.stack) && w.describe(child).value.stackId == c.stack
    ensures OnPlan(w, plan, h, seen, all + [c], pending - {id})
  {
    assert all[|h| - 1] == n && n in all;
    hide Nested, Planned, Different, HasRow, Edge, NotYet;
    var p, j := PlannedChild(env, w, root, plan, n, d, id);
    c := plan.nodes[j];
    var q := PlanNode(env, w, root, plan, n);
    var m := PlanNode(env, w, root, plan, c);
    assert plan.seen[q] == d;
    ChildPasses(env, w, root, plan, p, j, n, d, id, c, plan.seen[m], child, physical);
    ReviewedInventory(env, plan.catalog, root, n, d);
    OnPlanMore(env, w, plan, h, seen, all, pending, n, d, id, c);
  }

  lemma ReviewedInventory(env: Env, catalog: Catalog, root: Node, n: Node, d: Description)
    requires NodeReviewed(env, catalog, root, n, d)
    ensures n.url in catalog && Inventory(env, catalog[n.url], d.changes)
  {
  }

  lemma ChildPasses(env: Env, w: World, root: Node, plan: Plan, p: nat, j: nat, n: Node, d: Description, id: string,
                    c: Node, e: Description, child: string, physical: string)
    requires Planned(env, w, root, plan) && p < |plan.nodes| == |plan.seen| && j < |plan.nodes|
    requires plan.nodes[p] == n && plan.seen[p] == d && plan.nodes[j] == c && Edge(plan.catalog, n, d, id, c)
    requires NodeReviewed(env, plan.catalog, root, n, d) && NodeReviewed(env, plan.catalog, root, c, e)
    requires NodeRead(w, plan.catalog, c, e) && HasRow(d.changes, id, child, physical)
             && env.stackIdentity(root.stack).Some?
    ensures c.changeSet == child && c.url in plan.catalog
    ensures ChildAcceptable(env, w, child, physical, n.stack, root.stack) && w.describe(child).value.stackId == c.stack
  {
    hide Nested, Accepted, ChangeOk, IsReviewStack, DistinctChildren, Readable;
    assert DistinctIds(d.changes) by {
      InventoryIds(env, plan.catalog[n.url], d.changes);
    }
    assert HasChild(d.changes, id, c.changeSet);
    OneRow(d.changes, id, child, physical, c.changeSet);
    assert ChildRead(w, root.stack, n, d, id, c);
  }

  lemma InventoryIds(env: Env, t: Template, changes: seq<Change>)
    requires Inventory(env, t, changes)
    ensures DistinctIds(changes)
  {
  }

  lemma OnPlanMore(env: Env, w: World, plan: Plan, h: seq<Node>, seen: seq<Description>, all: seq<Node>,
                   pending: set<string>, n: Node, d: Description, id: string, c: Node)
    requires OnPlan(w, plan, h, seen, all, pending) && h != [] && n == h[|h| - 1] && d == seen[|h| - 1] && id in pending
    requires c in plan.nodes && Edge(plan.catalog, n, d, id, c)
    requires n.url in plan.catalog && Inventory(env, plan.catalog[n.url], d.changes)
    ensures OnPlan(w, plan, h, seen, all + [c], pending - {id})
  {
    hide Edge, Inventory, Nested;
    forall k | 0 <= k < |all| ensures all[k] != c {
      assert !Edge(plan.catalog, n, d, id, all[k]);
    }
    StillNotYet(env, plan.catalog, h, seen, all, pending, n, d, id, c);
    assert (all + [c])[..|h|] == all[..|h|];
  }

  lemma StillNotYet(env: Env, catalog: Catalog, h: seq<Node>, seen: seq<Description>, all: seq<Node>,
                    pending: set<string>, n: Node, d: Description, id: string, c: Node)
    requires NotYet(catalog, h, seen, all, pending) && h != [] && n == h[|h| - 1] && d == seen[|h| - 1]
    requires n.url in catalog && Inventory(env, catalog[n.url], d.changes) && Edge(catalog, n, d, id, c)
    ensures NotYet(catalog, h, seen, all + [c], pending - {id})
  {
    hide Inventory, HasChild, Nested;
    forall k, other | 0 <= k < |all + [c]| && other in pending - {id}
      ensures !Edge(catalog, n, d, other, (all + [c])[k])
    {
      if k == |all| && Edge(catalog, n, d, other, c) {
        SameChild(env, catalog[n.url], d.changes, id, other, c.changeSet);
      }
    }
  }

  /** Where in the plan a node and its child for a nested stack are. */
  lemma PlannedChild(env: Env, w: World, root: Node, plan: Plan, n: Node, d: Description, id: string)
    returns (p: nat, j: nat)
    requires Planned(env, w, root, plan) && n in plan.nodes && w.describe(n.changeSet) == Some(d)
    requires n.url in plan.catalog && id in Nested(plan.catalog[n.url])
    ensures p < j < |plan.nodes| == |plan.seen| && plan.nodes[p] == n && plan.seen[p] == d
            && Edge(plan.catalog, n, d, id, plan.nodes[j])
  {
    hide Edge, Nested, NodeReviewed, HasParent, ChildrenRead, DistinctNodes, NodeUrls, IsReviewStack;
    p :| 0 <= p < |plan.nodes| && plan.nodes[p] == n;
    assert NodeRead(w, plan.catalog, n, plan.seen[p]);
    assert HasNode(plan.catalog, n, d, id, plan.nodes, p);
    j :| p < j < |plan.nodes| && Edge(plan.catalog, n, d, id, plan.nodes[j]);
  }

  lemma TwoEdges(env: Env, t: Template, changes: seq<Change>, id: string, child: string, child2: string)
    requires Inventory(env, t, changes) && HasChild(changes, id, child) && HasChild(changes, id, child2)
    ensures child == child2
  {
    var i :| 0 <= i < |changes| && changes[i].logicalId == id && changes[i].childId == child;
    var j :| 0 <= j < |changes| && changes[j].logicalId == id && changes[j].childId == child2;
    assert i == j;
  }

  /** Once the queue is empty, every node of the plan has been reviewed. */
  lemma {:induction false} AllReached(env: Env, w: World, root: Node, plan: Plan, h: seq<Node>, seen: seq<Description>,
                                      i: nat)
    requires Planned(env, w, root, plan) && OnPlan(w, plan, h, seen, h, {}) && AllRealised(plan.catalog, h, seen, h, {})
    requires i < |plan.nodes| && h != [] && h[0] == root
    ensures plan.nodes[i] in h
    decreases i
  {
    if i > 0 {
      var p, id := ParentOnPlan(env, w, root, plan, i);
      AllReached(env, w, root, plan, h, seen, p);
      ChildReached(env, w, root, plan, h, seen, plan.nodes[p], plan.seen[p], id, i);
    } else {
      FirstIsRoot(env, w, root, plan);
    }
  }

  lemma FirstIsRoot(env: Env, w: World, root: Node, plan: Plan)
    requires Planned(env, w, root, plan)
    ensures plan.nodes != [] && plan.nodes[0] == root
  {
    hide NodeReviewed, HasNode, NodeRead, HasParent, ChildrenRead, IsReviewStack, NodeUrls;
  }

  lemma ChildReached(env: Env, w: World, root: Node, plan: Plan, h: seq<Node>, seen: seq<Description>, n: Node,
                     d: Description, id: string, i: nat)
    requires Planned(env, w, root, plan) && OnPlan(w, plan, h, seen, h, {}) && AllRealised(plan.catalog, h, seen, h, {})
    requires i < |plan.nodes| && n in h && w.describe(n.changeSet) == Some(d)
             && Edge(plan.catalog, n, d, id, plan.nodes[i])
    ensures plan.nodes[i] in h
  {
    hide NotYet, Different, Planned, AllRealised, Edge;
    var q := ReadAt(w, h, seen, n, d);
    hide AllRealised, NotYet, Different, Nested, Planned, HasChild, Inventory, Edge;
    EdgeTarget(plan.catalog, n, d, id, plan.nodes[i]);
    assert Due(plan.catalog, h, {}, q, id);
    hide Due;
    var k := RealisedAt(plan.catalog, h, seen, q, id);
    EdgeChild(plan.catalog, n, d, id, plan.nodes[i]);
    EdgeChild(plan.catalog, n, d, id, h[k]);
    var m := PlanNode(env, w, root, plan, n);
    ReviewedInventory(env, plan.catalog, root, n, d);
    TwoEdges(env, plan.catalog[n.url], d.changes, id, h[k].changeSet, plan.nodes[i].changeSet);
    if h[k] != plan.nodes[i] {
      PlanApart(env, w, root, plan, h[k], plan.nodes[i]);
    }
  }

  lemma ReadAt(w: World, h: seq<Node>, seen: seq<Description>, n: Node, d: Description) returns (q: nat)
    requires Truthful(w, h, seen) && n in h && w.describe(n.changeSet) == Some(d)
    ensures q < |h| == |seen| && h[q] == n && seen[q] == d
  {
    q :| 0 <= q < |h| && h[q] == n;
  }

  lemma EdgeChild(catalog: Catalog, p: Node, d: Description, id: string, n: Node)
    requires Edge(catalog, p, d, id, n)
    ensures HasChild(d.changes, id, n.changeSet)
  {
  }

  lemma RealisedAt(catalog: Catalog, h: seq<Node>, seen: seq<Description>, q: nat, id: string) returns (k: nat)
    requires AllRealised(catalog, h, seen, h, {}) && Due(catalog, h, {}, q, id)
    ensures k < |h| && q < |h| == |seen| && Edge(catalog, h[q], seen[q], id, h[k])
  {
    hide Edge;
    assert HasNode(catalog, h[q], seen[q], id, h, q);
    k :| q < k < |h| && Edge(catalog, h[q], seen[q], id, h[k]);
  }

  lemma ParentOnPlan(env: Env, w: World, root: Node, plan: Plan, i: nat) returns (p: nat, id: string)
    requires Planned(env, w, root, plan) && 0 < i < |plan.nodes|
    ensures p < i && p < |plan.seen| && Edge(plan.catalog, plan.nodes[p], plan.seen[p], id, plan.nodes[i])
    ensures w.describe(plan.nodes[p].changeSet) == Some(plan.seen[p])
  {
    hide Edge, NodeReviewed, HasNode, ChildrenRead, DistinctNodes, NodeUrls, IsReviewStack;
    assert NodeRead(w, plan.catalog, plan.nodes[0], plan.seen[0]);
    assert HasParent(plan.catalog, plan.nodes, plan.seen, plan.nodes[i], i);
    p, id :| 0 <= p < i && p < |plan.nodes| && p < |plan.seen|
        && Edge(plan.catalog, plan.nodes[p], plan.seen[p], id, plan.nodes[i]);
  }

  lemma {:induction false} DifferentCount(all: seq<Node>)
    requires Different(all)
    ensures |set n | n in all| == |all|
  {
    if all != [] {
      var init, last := all[..|all| - 1], all[|all| - 1];
      DifferentCount(init);
      assert (set n | n in all) == (set n | n in init) + {last};
      assert last !in init;
    }
  }

  lemma DoneOnPlan(env: Env, w: World, root: Node, plan: Plan, h: seq<Node>, seen: seq<Description>)
    requires Planned(env, w, root, plan) && OnPlan(w, plan, h, seen, h, {})
             && Progress(env, plan.catalog, root, h, seen, h, {})
    ensures NodeUrls(h) == plan.catalog.Keys && |h| == CATALOG_SIZE
  {
    hide AllReviewed, AllHaveParents, AllRealised, Planned;
    forall n | n in plan.nodes ensures n in h {
      var i :| 0 <= i < |plan.nodes| && plan.nodes[i] == n;
      AllReached(env, w, root, plan, h, seen, i);
    }
    SameNodes(h, plan.nodes);
    PlanSize(env, w, root, plan);
  }

  lemma PlanSize(env: Env, w: World, root: Node, plan: Plan)
    requires Planned(env, w, root, plan)
    ensures |plan.nodes| == CATALOG_SIZE && NodeUrls(plan.nodes) == plan.catalog.Keys && Different(plan.nodes)
  {
    hide HasParent, HasNode, NodeReviewed, ChildrenRead, IsReviewStack, NodeRead;
  }

  lemma SameNodes(h: seq<Node>, nodes: seq<Node>)
    requires forall n :: n in h <==> n in nodes
    ensures NodeUrls(h) == NodeUrls(nodes)
    ensures Different(h) && Different(nodes) ==> |h| == |nodes|
  {
    assert (set n | n in h) == (set n | n in nodes);
    if Different(h) && Different(nodes) {
      DifferentCount(h);
      DifferentCount(nodes);
    }
  }

  ghost predicate AllReviewed(env: Env, catalog: Catalog, root: Node, h: seq<Node>, seen: seq<Description>) {
    |h| == |seen| && forall i :: 0 <= i < |h| ==> NodeReviewed(env, catalog, root, h[i], seen[i])
  }

  ghost predicate AllHaveParents(catalog: Catalog, h: seq<Node>, seen: seq<Description>, all: seq<Node>) {
    forall i :: 1 <= i < |all| ==> HasParent(catalog, h, seen, all[i], i)
  }

  /** Every nested stack of a reviewed node has its node, but for those `pending` of the last one. */
  ghost predicate AllRealised(catalog: Catalog, h: seq<Node>, seen: seq<Description>, all: seq<Node>,
                              pending: set<string>) {
    && |h| == |seen|
    && forall p, id :: Due(catalog, h, pending, p, id) ==> HasNode(catalog, h[p], seen[p], id, all, p)
  }

  predicate Due(catalog: Catalog, h: seq<Node>, pending: set<string>, p: int, id: string) {
    0 <= p < |h| && h[p].url in catalog && id in Nested(catalog[h[p].url]) && (p < |h| - 1 || id !in pending)
  }

  /** The traversal so far: `h` is reviewed, `all` is `h` followed by the queue, and the nested stacks `pending`
      of the last reviewed node are still to be looked up. */
  ghost predicate Progress(env: Env, catalog: Catalog, root: Node, h: seq<Node>, seen: seq<Description>, all: seq<Node>,
                           pending: set<string>) {
    && |h| <= |all| && h == all[..|h|] && |all| > 0 && all[0] == root && DistinctNodes(h)
    && AllReviewed(env, catalog, root, h, seen) && AllHaveParents(catalog, h, seen, all)
    && AllRealised(catalog, h, seen, all, pending)
  }

  lemma ReviewedMore(env: Env, catalog: Catalog, root: Node, h: seq<Node>, seen: seq<Description>, n: Node,
                     d: Description)
    requires AllReviewed(env, catalog, root, h, seen) && NodeReviewed(env, catalog, root, n, d)
    ensures AllReviewed(env, catalog, root, h + [n], seen + [d])
  {
    hide NodeReviewed;
  }

  lemma ParentsStay(catalog: Catalog, h: seq<Node>, seen: seq<Description>, all: seq<Node>, n: Node, d: Description)
    requires AllHaveParents(catalog, h, seen, all) && |h| == |seen|
    ensures AllHaveParents(catalog, h + [n], seen + [d], all)
  {
    hide Edge;
    forall i | 1 <= i < |all| ensures HasParent(catalog, h + [n], seen + [d], all[i], i) {
      assert HasParent(catalog, h, seen, all[i], i);
      var p, id :| 0 <= p < i && p < |h| && p < |seen| && Edge(catalog, h[p], seen[p], id, all[i]);
      assert (h + [n])[p] == h[p] && (seen + [d])[p] == seen[p];
    }
  }

  lemma RealisedStay(catalog: Catalog, h: seq<Node>, seen: seq<Description>, all: seq<Node>, n: Node, d: Description)
    requires AllRealised(catalog, h, seen, all, {}) && n.url in catalog
    ensures AllRealised(catalog, h + [n], seen + [d], all, Nested(catalog[n.url]).Keys)
  {
    hide Edge, HasNode, Nested;
    var h1 := h + [n];
    forall p, id | Due(catalog, h1, Nested(catalog[n.url]).Keys, p, id)
      ensures HasNode(catalog, h1[p], (seen + [d])[p], id, all, p)
    {
      assert p < |h| && h1[p] == h[p];
      assert Due(catalog, h, {}, p, id);
    }
  }

  lemma AddNode(env: Env, catalog: Catalog, root: Node, h: seq<Node>, seen: seq<Description>, all: seq<Node>, n: Node,
                d: Description)
    requires Progress(env, catalog, root, h, seen, all, {}) && |h| < |all| && n == all[|h|] && n.url in catalog
    requires NodeReviewed(env, catalog, root, n, d)
    requires forall m :: m in h ==> m.url != n.url && m.changeSet != n.changeSet && m.stack != n.stack
    ensures Progress(env, catalog, root, h + [n], seen + [d], all, Nested(catalog[n.url]).Keys)
  {
    hide NodeReviewed, AllHaveParents, AllRealised, AllReviewed, DistinctNodes;
    ReviewedMore(env, catalog, root, h, seen, n, d);
    DistinctMore(h, n);
    assert |h| == |seen| by {
      SameLength(env, catalog, root, h, seen);
    }
    ParentsStay(catalog, h, seen, all, n, d);
    RealisedStay(catalog, h, seen, all, n, d);
    assert all[..|h + [n]|] == h + [n];
  }

  lemma DistinctMore(h: seq<Node>, n: Node)
    requires DistinctNodes(h) && forall m :: m in h ==>
               m.url != n.url && m.changeSet != n.changeSet
               && m.stack != n.stack
    ensures DistinctNodes(h + [n])
  {
  }

  lemma SameLength(env: Env, catalog: Catalog, root: Node, h: seq<Node>, seen: seq<Description>)
    requires AllReviewed(env, catalog, root, h, seen)
    ensures |h| == |seen|
  {
  }

  lemma ParentsMore(catalog: Catalog, h: seq<Node>, seen: seq<Description>, all: seq<Node>, id: string, child: Node)
    requires AllHaveParents(catalog, h, seen, all) && 0 < |h| == |seen| <= |all|
    requires Edge(catalog, h[|h| - 1], seen[|h| - 1], id, child)
    ensures AllHaveParents(catalog, h, seen, all + [child])
  {
    hide Edge;
    var more := all + [child];
    forall i | 1 <= i < |more| ensures HasParent(catalog, h, seen, more[i], i) {
      if i < |all| {
        assert HasParent(catalog, h, seen, all[i], i);
      }
    }
  }

  lemma RealisedMore(catalog: Catalog, h: seq<Node>, seen: seq<Description>, all: seq<Node>, pending: set<string>,
                     id: string, child: Node)
    requires AllRealised(catalog, h, seen, all, pending) && 0 < |h| <= |all|
    requires Edge(catalog, h[|h| - 1], seen[|h| - 1], id, child)
    ensures AllRealised(catalog, h, seen, all + [child], pending - {id})
  {
    hide Edge, Nested;
    var more := all + [child];
    forall p, k | Due(catalog, h, pending - {id}, p, k) ensures HasNode(catalog, h[p], seen[p], k, more, p) {
      if p == |h| - 1 && k == id {
        assert Edge(catalog, h[p], seen[p], k, more[|all|]);
      } else {
        assert Due(catalog, h, pending, p, k);
        var j :| p < j < |all| && Edge(catalog, h[p], seen[p], k, all[j]);
        assert more[j] == all[j];
      }
    }
  }

  lemma AddChild(env: Env, catalog: Catalog, root: Node, h: seq<Node>, seen: seq<Description>, all: seq<Node>,
                 pending: set<string>, id: string, child: Node)
    requires Progress(env, catalog, root, h, seen, all, pending) && 0 < |h| == |seen|
    requires Edge(catalog, h[|h| - 1], seen[|h| - 1], id, child)
    ensures Progress(env, catalog, root, h, seen, all + [child], pending - {id})
  {
    ParentsMore(catalog, h, seen, all, id, child);
    RealisedMore(catalog, h, seen, all, pending, id, child);
    hide AllHaveParents, AllRealised, AllReviewed, Edge;
    assert (all + [child])[..|h|] == all[..|h|];
  }

  predicate SealedRecords(env: Env, records: seq<SealedTemplate>) {
    && (forall x :: x in records ==> env.isTemplateUrl(x.url))
    && (forall i, j :: 0 <= i < j < |records| ==> records[i].url != records[j].url)
  }

  function Urls(records: seq<SealedTemplate>): set<string> {
    set x | x in records :: x.url
  }

  /** The catalog holds exactly the records. */
  predicate Holds(catalog: Catalog, records: seq<SealedTemplate>) {
    && |catalog.Keys| == |records| && catalog.Keys == Urls(records)
    && forall x :: x in records ==> x.url in catalog && catalog[x.url] == x.template
  }

  lemma SealedMore(env: Env, records: seq<SealedTemplate>, x: SealedTemplate)
    ensures SealedRecords(env, records + [x]) <==>
              SealedRecords(env, records) && env.isTemplateUrl(x.url)
              && x.url !in Urls(records)
  {
    var all := records + [x];
    if SealedRecords(env, all) {
      assert forall i :: 0 <= i < |records| ==> all[i] == records[i];
      assert all[|records|] == x && x in all;
      assert forall y :: y in records ==> y in all;
      forall y | y in records ensures y.url != x.url {
        var i :| 0 <= i < |records| && records[i] == y;
        assert all[i].url != all[|records|].url;
      }
    }
  }

  lemma UrlsMore(records: seq<SealedTemplate>, x: SealedTemplate)
    ensures Urls(records + [x]) == Urls(records) + {x.url}
  {
    assert forall y :: y in records + [x] <==> y in records || y == x;
  }

  lemma HoldsMore(catalog: Catalog, records: seq<SealedTemplate>, x: SealedTemplate)
    requires Holds(catalog, records) && x.url !in catalog
    ensures Holds(catalog[x.url := x.template], records + [x])
  {
    hide Urls;
    UrlsMore(records, x);
    var next := catalog[x.url := x.template];
    assert next.Keys == catalog.Keys + {x.url};
    forall y | y in records + [x] ensures y.url in next && next[y.url] == y.template {
      assert y in records || y == x;
    }
  }

  lemma PrefixSealed(env: Env, records: seq<SealedTemplate>, k: nat)
    requires k <= |records|
    ensures SealedRecords(env, records) ==> SealedRecords(env, records[..k])
  {
  }

  lemma EmptyCatalog(env: Env)
    ensures SealedRecords(env, []) && Holds(map[], [])
  {
    var none: Catalog := map[];
    assert none.Keys == {} == Urls([]);
  }

  lemma HeldUrls(catalog: Catalog, records: seq<SealedTemplate>)
    requires Holds(catalog, records)
    ensures catalog.Keys == Urls(records)
  {
  }

  /** The catalog of the first `k` records. */
  predicate Built(env: Env, catalog: Catalog, records: seq<SealedTemplate>, k: nat) {
    k <= |records| && SealedRecords(env, records[..k]) && Holds(catalog, records[..k])
  }

  lemma CatalogStep(env: Env, catalog: Catalog, records: seq<SealedTemplate>, k: nat)
    requires k < |records| && Built(env, catalog, records, k)
    ensures
      var x := records[k];
      if !env.isTemplateUrl(x.url) || x.url in catalog then !SealedRecords(env, records)
      else Built(env, catalog[x.url := x.template], records, k + 1)
  {
    hide SealedRecords, Holds, Urls;
    assert records[..k] + [records[k]] == records[..k + 1];
    SealedMore(env, records[..k], records[k]);
    HeldUrls(catalog, records[..k]);
    PrefixSealed(env, records, k + 1);
    if records[k].url !in catalog {
      HoldsMore(catalog, records[..k], records[k]);
    }
  }

  lemma CatalogEnds(env: Env, catalog: Catalog, records: seq<SealedTemplate>)
    ensures Built(env, map[], records, 0)
    ensures Built(env, catalog, records, |records|) <==> SealedRecords(env, records) && Holds(catalog, records)
  {
    EmptyCatalog(env);
    assert records[..0] == [] && records[..|records|] == records;
    hide SealedRecords, Holds;
  }

  /** The catalog of ten distinct templates. */
  method BuildCatalog(env: Env, records: seq<SealedTemplate>) returns (r: Result<Catalog, ReviewError>)
    ensures r.Ok? <==> |records| == CATALOG_SIZE && SealedRecords(env, records)
    ensures r.Ok? ==> Holds(r.value, records)
  {
    if |records| != CATALOG_SIZE {
      return Err(CatalogInvalid);
    }
    hide *;
    var catalog: Catalog := map[];
    CatalogEnds(env, catalog, records);
    for k := 0 to |records|
      invariant Built(env, catalog, records, k)
    {
      CatalogStep(env, catalog, records, k);
      var record := records[k];
      if !env.isTemplateUrl(record.url) || record.url in catalog {
        return Err(CatalogInvalid);
      }
      catalog := catalog[record.url := record.template];
    }
    CatalogEnds(env, catalog, records);
    return Ok(catalog);
  }

  lemma SameCatalog(a: Catalog, b: Catalog, records: seq<SealedTemplate>)
    requires Holds(a, records) && Holds(b, records)
    ensures a == b
  {
    forall u | u in a ensures a[u] == b[u] {
      var x :| x in records && x.url == u;
    }
  }

  /** `review_create_change_set`: it ends on every sequence of answers, and what it accepts is `Accepted`. If AWS
      truthfully holds an acceptable hierarchy, it is accepted. */
  method Review(aws: Aws, env: Env, changeSetType: string, identity: string, rootChangeSet: string, rootStack: string,
                rootUrl: string, records: seq<SealedTemplate>, ghost plan: Plan)
    returns (r: Result<seq<Node>, ReviewError>, ghost catalog: Catalog, ghost seen: seq<Description>)
    modifies aws
    ensures aws.faults >= old(aws.faults)
    ensures r.Ok? ==> changeSetType == "CREATE" && env.changeSetIdentity(rootChangeSet) == Some(identity)
                      && env.stackIdentity(rootStack) == Some(identity)
    ensures r.Ok? ==> |records| == CATALOG_SIZE && Holds(catalog, records)
    ensures r.Ok? ==> Accepted(env, catalog, Node(rootChangeSet, rootStack, rootUrl, None, 0), r.value, seen)
    ensures r.Ok? ==> Evidence(env, aws.given, catalog, Node(rootChangeSet, rootStack, rootUrl, None, 0), r.value,
                               seen, r.value)
    ensures && aws.faults == old(aws.faults) && changeSetType == "CREATE"
            && env.changeSetIdentity(rootChangeSet) == Some(identity)
            && env.stackIdentity(rootStack) == Some(identity) && env.isTemplateUrl(rootUrl)
            && |records| == CATALOG_SIZE && SealedRecords(env, records) && Holds(plan.catalog, records)
            && Planned(env, aws.world, Node(rootChangeSet, rootStack, rootUrl, None, 0), plan)
            ==> r.Ok?
  {
    hide Progress, NodeReviewed, Edge, Accepted, Holds, SealedRecords, Nested, IsReviewStack, NodeUrls, NodeChangeSets,
         NodeStacks, HasChild, Planned, OnPlan, NodeRead, HasRow, Linked, Inventory, LiteralUrls, NodeAcceptable, Urls;
    catalog, seen := map[], [];
    aws.given := {};
    if changeSetType != "CREATE" {
      return Err(NotCreate), catalog, seen;
    }
    if env.changeSetIdentity(rootChangeSet) != Some(identity) || env.stackIdentity(rootStack) != Some(identity)
       || !env.isTemplateUrl(rootUrl) {
      return Err(IdentityInvalid), catalog, seen;
    }
    ghost var root := Node(rootChangeSet, rootStack, rootUrl, None, 0);
    ghost var planned := Holds(plan.catalog, records) && Planned(env, aws.world, root, plan);
    var built := BuildCatalog(env, records);
    if built.Err? {
      return Err(CatalogInvalid), catalog, seen;
    }
    var sealed := built.value;
    catalog := sealed;
    if planned {
      SameCatalog(sealed, plan.catalog, records);
      PlanStarts(env, aws.world, root, plan);
    }
    if rootUrl !in sealed {
      return Err(CatalogInvalid), catalog, seen;
    }
    var rootRecord := aws.DescribeStack(rootStack);
    if rootRecord == None || !IsReviewStack(rootRecord.value, rootStack, None, rootStack) {
      return Err(StackInvalid), catalog, seen;
    }
    r, seen := Traverse(aws, env, Node(rootChangeSet, rootStack, rootUrl, None, 0), sealed, rootRecord.value, plan);
    return r, catalog, seen;
  }

  /** The breadth-first traversal from the root. */
  method Traverse(aws: Aws, env: Env, root: Node, sealed: Catalog, rootRecord: StackRecord, ghost plan: Plan)
    returns (r: Result<seq<Node>, ReviewError>, ghost seen: seq<Description>)
    requires root.parent == None && root.depth == 0 && env.stackIdentity(root.stack).Some?
    requires StackRead(root.stack, rootRecord) in aws.given && IsReviewStack(rootRecord, root.stack, None, root.stack)
    modifies aws
    ensures aws.faults >= old(aws.faults)
    ensures r.Ok? ==>
              Accepted(env, sealed, root, r.value, seen)
              && Evidence(env, aws.given, sealed, root, r.value, seen, r.value)
    ensures && aws.faults == old(aws.faults) && sealed == plan.catalog && Planned(env, aws.world, root, plan)
            && aws.world.stack(root.stack) == Some(rootRecord)
            ==> r.Ok?
  {
    hide Progress, NodeReviewed, Edge, Accepted, Nested, IsReviewStack, NodeUrls, NodeChangeSets, NodeStacks,
         HasChild, Planned, OnPlan, NodeRead, HasRow, Linked, Inventory, LiteralUrls, NodeAcceptable, Evidence;
    ghost var planned := sealed == plan.catalog && Planned(env, aws.world, root, plan)
        && aws.world.stack(root.stack) == Some(rootRecord);
    if planned {
      PlanStarts(env, aws.world, root, plan);
    }
    seen := [];
    NoneTraversed();
    Begun(env, sealed, root);
    EvidenceBegins(env, aws.given, sealed, root);
    var queue := [root];
    assert [] + queue == queue;
    var traversedUrls: set<string>, traversedChangeSets: set<string>, traversedStacks: set<string> := {}, {}, {};
    var hierarchy: seq<Node> := [];
    while queue != []
      invariant aws.faults >= old(aws.faults)
      invariant planned && aws.faults == old(aws.faults)
                ==> OnPlan(aws.world, plan, hierarchy, seen, hierarchy + queue, {})
      invariant |hierarchy| == |seen| && Progress(env, sealed, root, hierarchy, seen, hierarchy + queue, {})
      invariant old(aws.given) <= aws.given
                && Evidence(env, aws.given, sealed, root, hierarchy, seen, hierarchy + queue)
      invariant traversedUrls == NodeUrls(hierarchy) <= sealed.Keys
      invariant traversedChangeSets == NodeChangeSets(hierarchy) && traversedStacks == NodeStacks(hierarchy)
      decreases |sealed.Keys - traversedUrls|
    {
      var n := queue[0];
      assert (hierarchy + queue)[|hierarchy|] == n;
      assert queue == [n] + queue[1..];
      if planned && aws.faults == old(aws.faults) {
        ReadsOnPlan(env, aws.world, root, plan, rootRecord, hierarchy, seen, hierarchy + queue, n);
      }
      queue := queue[1..];
      if n.depth > MAX_HIERARCHY_DEPTH {
        return Err(TooDeep), seen;
      }
      if n.url in traversedUrls || n.changeSet in traversedChangeSets || n.stack in traversedStacks {
        return Err(HierarchyDuplicated), seen;
      }
      if n.url !in sealed {
        return Err(Unsealed), seen;
      }
      ghost var d: Description;
      var next: Result<seq<Node>, ReviewError>;
      d, next := Visit(aws, env, root, sealed, plan, hierarchy, seen, queue, n, root.changeSet, root.stack, rootRecord);
      if next.Err? {
        return Err(next.error), seen;
      }
      TraversedMore(hierarchy, n);
      FewerLeft(sealed.Keys, traversedUrls, n.url);
      traversedUrls := traversedUrls + {n.url};
      traversedChangeSets := traversedChangeSets + {n.changeSet};
      traversedStacks := traversedStacks + {n.stack};
      hierarchy := hierarchy + [n];
      seen := seen + [d];
      queue := next.value;
    }
    assert hierarchy + [] == hierarchy;
    if planned && aws.faults == old(aws.faults) {
      DoneOnPlan(env, aws.world, root, plan, hierarchy, seen);
    }
    if traversedUrls != sealed.Keys || |hierarchy| != CATALOG_SIZE {
      return Err(MissingOrOrphaned), seen;
    }
    Finished(env, sealed, root, hierarchy, seen);
    return Ok(hierarchy), seen;
  }

  /** One node popped from the queue, not traversed before: its reads, and the queue with its children. */
  method Visit(aws: Aws, env: Env, ghost root: Node, catalog: Catalog, ghost plan: Plan, ghost h: seq<Node>,
               ghost seen: seq<Description>, queue: seq<Node>, n: Node, rootChangeSet: string, rootStack: string,
               rootRecord: StackRecord) returns (ghost d: Description, r: Result<seq<Node>, ReviewError>)
    requires root.changeSet == rootChangeSet && root.stack == rootStack && root.parent == None
             && env.stackIdentity(rootStack).Some?
    requires n.url in catalog && n.depth <= MAX_HIERARCHY_DEPTH && |h| == |seen|
    requires n.url !in NodeUrls(h) && n.changeSet !in NodeChangeSets(h) && n.stack !in NodeStacks(h)
    requires Progress(env, catalog, root, h, seen, h + ([n] + queue), {})
    requires Evidence(env, aws.given, catalog, root, h, seen, h + ([n] + queue))
    requires StackRead(root.stack, rootRecord) in aws.given && IsReviewStack(rootRecord, root.stack, None, root.stack)
    modifies aws
    ensures aws.faults >= old(aws.faults) && old(aws.given) <= aws.given
    ensures r.Ok? ==> Progress(env, catalog, root, h + [n], seen + [d], h + [n] + r.value, {})
    ensures r.Ok? ==> Evidence(env, aws.given, catalog, root, h + [n], seen + [d], h + [n] + r.value)
    ensures aws.faults == old(aws.faults) && catalog == plan.catalog && Planned(env, aws.world, root, plan)
            && aws.world.stack(rootStack) == Some(rootRecord) && OnPlan(aws.world, plan, h, seen, h + ([n] + queue), {})
            ==> r.Ok? && OnPlan(aws.world, plan, h + [n], seen + [d], h + [n] + r.value, {})
  {
    hide Progress, NodeReviewed, Edge, Nested, IsReviewStack, NodeUrls, NodeChangeSets, NodeStacks, HasChild, Planned,
         OnPlan, NodeRead, HasRow, Linked, Inventory, LiteralUrls, NodeAcceptable, Evidence, NodeWasRead;
    ghost var all := h + ([n] + queue);
    assert all == h + [n] + queue && all[|h|] == n;
    ghost var onPlan := catalog == plan.catalog && Planned(env, aws.world, root, plan)
                        && aws.world.stack(rootStack) == Some(rootRecord) && OnPlan(aws.world, plan, h, seen, all, {});
    if onPlan {
      ReadsOnPlan(env, aws.world, root, plan, rootRecord, h, seen, all, n);
    }
    var read, changes := ReviewNode(aws, env, catalog, rootChangeSet, rootStack, rootRecord, n);
    if read.Err? {
      d := Description("", "", "", "", false, "", "", []);
      return d, Err(read.error);
    }
    d := read.value;
    StepsTo(env, catalog, root, h, seen, all, n, d);
    EvidenceStays(env, old(aws.given), aws.given, catalog, root, h, seen, all);
    if h == [] {
      FirstIsTheRoot(env, catalog, root, seen, all);
    }
    EvidenceNode(env, aws.given, catalog, root, h, seen, all, n, d);
    if onPlan && aws.faults == old(aws.faults) {
      PushOnPlan(env, aws.world, root, plan, h, seen, all, n, d);
    }
    r := Expand(aws, env, root, catalog, plan, h + [n], seen + [d], queue, n, d, changes, rootStack);
  }

  lemma FirstIsTheRoot(env: Env, catalog: Catalog, root: Node, seen: seq<Description>, all: seq<Node>)
    requires Progress(env, catalog, root, [], seen, all, {})
    ensures |all| > 0 && all[0] == root
  {
    hide AllReviewed, AllHaveParents, AllRealised;
  }

  lemma PlanStarts(env: Env, w: World, root: Node, plan: Plan)
    requires Planned(env, w, root, plan)
    ensures root.url in plan.catalog && OnPlan(w, plan, [], [], [root], {})
    ensures w.stack(root.stack).Some? && IsReviewStack(w.stack(root.stack).value, root.stack, None, root.stack)
  {
    hide HasParent, HasNode, ChildrenRead;
    assert plan.nodes[0] == root && NodeReviewed(env, plan.catalog, root, root, plan.seen[0]);
    assert [root][..0] == [];
  }

  /** Every check on the next node passes. */
  lemma ReadsOnPlan(env: Env, w: World, root: Node, plan: Plan, rootRecord: StackRecord, h: seq<Node>,
                    seen: seq<Description>, all: seq<Node>, n: Node)
    requires Planned(env, w, root, plan) && OnPlan(w, plan, h, seen, all, {}) && |h| < |all| && n == all[|h|]
    requires w.stack(root.stack) == Some(rootRecord)
    ensures n.depth <= MAX_HIERARCHY_DEPTH && n.url in plan.catalog
    ensures n.url !in NodeUrls(h) && n.changeSet !in NodeChangeSets(h) && n.stack !in NodeStacks(h)
    ensures NodeAcceptable(env, w, plan.catalog, root.changeSet, root.stack, rootRecord, n)
  {
    var i := NextOnPlan(env, w, root, plan, h, seen, all);
    hide HasParent, HasNode, ChildrenRead, IsReviewStack, OnPlan;
  }

  lemma PushOnPlan(env: Env, w: World, root: Node, plan: Plan, h: seq<Node>, seen: seq<Description>, all: seq<Node>,
                   n: Node, d: Description)
    requires OnPlan(w, plan, h, seen, all, {}) && |h| < |all| && n == all[|h|] && w.describe(n.changeSet) == Some(d)
    requires Progress(env, plan.catalog, root, h, seen, all, {}) && root.parent == None
             && n.changeSet !in NodeChangeSets(h)
    requires n.url in plan.catalog
    ensures OnPlan(w, plan, h + [n], seen + [d], all, Nested(plan.catalog[n.url]).Keys)
  {
    hide OnPlan, AllReviewed, AllRealised, AllHaveParents;
    PushNode(w, plan, h, seen, all, n, d);
  }

  lemma TraversedMore(h: seq<Node>, n: Node)
    ensures NodeUrls(h + [n]) == NodeUrls(h) + {n.url} && NodeChangeSets(h + [n]) == NodeChangeSets(h) + {n.changeSet}
    ensures NodeStacks(h + [n]) == NodeStacks(h) + {n.stack}
  {
    assert forall m :: m in h + [n] <==> m in h || m == n;
  }

  lemma FewerLeft<T>(all: set<T>, done: set<T>, x: T)
    requires x in all && x !in done
    ensures |all - (done + {x})| < |all - done|
  {
    assert all - (done + {x}) == (all - done) - {x};
  }

  /** The children of the node just reviewed, queued behind the rest. */
  method Expand(aws: Aws, env: Env, ghost root: Node, catalog: Catalog, ghost plan: Plan, ghost h: seq<Node>,
                ghost seen: seq<Description>, waiting: seq<Node>, n: Node, ghost d: Description,
                changes: map<string, (string, string)>, rootStack: string) returns (r: Result<seq<Node>, ReviewError>)
    requires n.url in catalog && changes.Keys == Nested(catalog[n.url]).Keys && root.stack == rootStack
    requires forall id :: id in changes ==>
               HasChild(d.changes, id, changes[id].0)
               && HasRow(d.changes, id, changes[id].0, changes[id].1)
    requires 0 < |h| == |seen| && h[|h| - 1] == n && seen[|seen| - 1] == d && env.stackIdentity(rootStack).Some?
    requires Progress(env, catalog, root, h, seen, h + waiting, Nested(catalog[n.url]).Keys)
    requires Evidence(env, aws.given, catalog, root, h, seen, h + waiting)
    modifies aws
    ensures aws.faults >= old(aws.faults) && old(aws.given) <= aws.given
    ensures r.Ok? ==> Progress(env, catalog, root, h, seen, h + r.value, {})
    ensures r.Ok? ==> Evidence(env, aws.given, catalog, root, h, seen, h + r.value)
    ensures aws.faults == old(aws.faults) && catalog == plan.catalog && Planned(env, aws.world, root, plan)
            && OnPlan(aws.world, plan, h, seen, h + waiting, Nested(catalog[n.url]).Keys)
            ==> r.Ok? && OnPlan(aws.world, plan, h, seen, h + r.value, {})
  {
    hide Progress, Edge, Nested, HasChild, HasRow, Planned, OnPlan, IsReviewStack, ChildAcceptable, Evidence,
         DistinctNodes;
    ghost var onPlan := catalog == plan.catalog && Planned(env, aws.world, root, plan)
                        && OnPlan(aws.world, plan, h, seen, h + waiting, Nested(catalog[n.url]).Keys);
    var queue, pending := waiting, changes.Keys;
    while pending != {}
      invariant aws.faults >= old(aws.faults)
      invariant pending <= changes.Keys && Progress(env, catalog, root, h, seen, h + queue, pending)
      invariant old(aws.given) <= aws.given && Evidence(env, aws.given, catalog, root, h, seen, h + queue)
      invariant onPlan && aws.faults == old(aws.faults) ==> OnPlan(aws.world, plan, h, seen, h + queue, pending)
      decreases |pending|
    {
      var id :| id in pending;
      var child := changes[id].0;
      ghost var c: Node;
      if onPlan && aws.faults == old(aws.faults) {
        c := ChildOnPlan(env, aws.world, root, plan, h, seen, h + queue, pending, n, d, id, child, changes[id].1);
        EdgeUrl(catalog, n, d, id, c);
      }
      if Nested(catalog[n.url])[id] !in catalog {
        return Err(Unsealed);
      }
      ghost var before := aws.given;
      var childStack, record := ReviewChildStack(aws, env, child, changes[id].1, n.stack, rootStack);
      EvidenceStays(env, before, aws.given, catalog, root, h, seen, h + queue);
      if childStack.Err? {
        return Err(childStack.error);
      }
      var node := Node(child, childStack.value, Nested(catalog[n.url])[id], Some(n.changeSet), n.depth + 1);
      ChildEdge(catalog, n, d, changes, id, node);
      assert StackUnder(aws.given, root, n, node);
      ChildQueued(env, aws.given, catalog, root, h, seen, queue, pending, id, node);
      queue := queue + [node];
      pending := pending - {id};
    }
    return Ok(queue);
  }

  lemma ChildQueued(env: Env, given: set<Answer>, catalog: Catalog, root: Node, h: seq<Node>, seen: seq<Description>,
                    queue: seq<Node>, pending: set<string>, id: string, child: Node)
    requires Progress(env, catalog, root, h, seen, h + queue, pending) && 0 < |h| == |seen|
    requires Evidence(env, given, catalog, root, h, seen, h + queue)
    requires Edge(catalog, h[|h| - 1], seen[|h| - 1], id, child) && StackUnder(given, root, h[|h| - 1], child)
    ensures Progress(env, catalog, root, h, seen, h + (queue + [child]), pending - {id})
    ensures Evidence(env, given, catalog, root, h, seen, h + (queue + [child]))
    ensures h + (queue + [child]) == h + queue + [child]
  {
    hide Progress, Evidence, Edge, StackUnder;
    AddChild(env, catalog, root, h, seen, h + queue, pending, id, child);
    EvidenceChild(env, given, catalog, root, h, seen, h + queue, child);
    assert h + (queue + [child]) == h + queue + [child];
  }

  lemma EdgeUrl(catalog: Catalog, p: Node, d: Description, id: string, c: Node)
    requires Edge(catalog, p, d, id, c)
    ensures p.url in catalog && id in Nested(catalog[p.url]) && Nested(catalog[p.url])[id] == c.url
    ensures c.parent == Some(p.changeSet) && c.depth == p.depth + 1
  {
  }

  lemma NoneTraversed()
    ensures NodeUrls([]) == {} && NodeChangeSets([]) == {} && NodeStacks([]) == {}
  {
  }

  lemma Begun(env: Env, catalog: Catalog, root: Node)
    ensures Progress(env, catalog, root, [], [], [] + [root], {})
  {
  }

  lemma Finished(env: Env, catalog: Catalog, root: Node, h: seq<Node>, seen: seq<Description>)
    requires Progress(env, catalog, root, h, seen, h, {}) && root.parent == None && root.depth == 0
    requires |h| == CATALOG_SIZE && NodeUrls(h) == catalog.Keys
    ensures Accepted(env, catalog, root, h, seen)
  {
    hide NodeReviewed, Edge, HasParent, HasNode;
    forall p, id | 0 <= p < |h| && h[p].url in catalog && id in Nested(catalog[h[p].url])
      ensures HasNode(catalog, h[p], seen[p], id, h, p)
    {
      assert Due(catalog, h, {}, p, id);
    }
  }

  lemma StepsTo(env: Env, catalog: Catalog, root: Node, h: seq<Node>, seen: seq<Description>, all: seq<Node>, n: Node,
                d: Description)
    requires Progress(env, catalog, root, h, seen, all, {}) && |h| < |all| && n == all[|h|]
    requires n.url in catalog && NodeReviewed(env, catalog, root, n, d)
    requires n.url !in NodeUrls(h) && n.changeSet !in NodeChangeSets(h) && n.stack !in NodeStacks(h)
    ensures Progress(env, catalog, root, h + [n], seen + [d], all, Nested(catalog[n.url]).Keys)
  {
    forall m | m in h ensures m.url != n.url && m.changeSet != n.changeSet && m.stack != n.stack {
      assert m.url in NodeUrls(h) && m.changeSet in NodeChangeSets(h) && m.stack in NodeStacks(h);
    }
    AddNode(env, catalog, root, h, seen, all, n, d);
  }

  lemma ChildEdge(catalog: Catalog, p: Node, d: Description, changes: map<string, (string, string)>, id: string,
                  c: Node)
    requires p.url in catalog && id in Nested(catalog[p.url]) && id in changes
    requires HasChild(d.changes, id, changes[id].0)
    requires c.changeSet == changes[id].0 && c.url == Nested(catalog[p.url])[id] && c.parent == Some(p.changeSet)
    requires c.depth == p.depth + 1
    ensures Edge(catalog, p, d, id, c)
  {
  }

  /** What AWS must hold for one node. */
  predicate NodeAcceptable(env: Env, w: World, catalog: Catalog, rootChangeSet: string, rootStack: string,
                           rootRecord: StackRecord, n: Node) {
    && n.url in catalog && w.template(n.changeSet) == Some(catalog[n.url]) && LiteralUrls(catalog[n.url])
    && env.changeSetIdentity(n.changeSet) == env.changeSetIdentity(rootChangeSet)
    && env.stackIdentity(n.stack) == env.stackIdentity(rootStack)
    && w.describe(n.changeSet).Some?
    && var d := w.describe(n.changeSet).value;
       && |d.changes| <= MAX_CHANGE_RECORDS && Linked(rootChangeSet, n, d) && Inventory(env, catalog[n.url], d.changes)
       && (n.parent.None? ==> env.invocationMatches(d, rootRecord))
  }

  /** The reads of one popped node. */
  method ReviewNode(aws: Aws, env: Env, catalog: Catalog, rootChangeSet: string, rootStack: string,
                    rootRecord: StackRecord, n: Node)
    returns (r: Result<Description, ReviewError>, changes: map<string, (string, string)>)
    requires n.url in catalog && n.depth <= MAX_HIERARCHY_DEPTH
    modifies aws
    ensures aws.faults >= old(aws.faults) && old(aws.given) <= aws.given
    ensures r.Ok? ==>
              NodeWasRead(aws.given, catalog, n, r.value)
              && (n.parent.None? ==> env.invocationMatches(r.value, rootRecord))
    ensures r.Ok? ==> forall root: Node :: root.changeSet == rootChangeSet && root.stack == rootStack ==>
                        NodeReviewed(env, catalog, root, n, r.value)
    ensures r.Ok? ==> changes.Keys == Nested(catalog[n.url]).Keys
                      && forall id :: id in changes ==>
                           HasChild(r.value.changes, id, changes[id].0)
                               && HasRow(r.value.changes, id, changes[id].0, changes[id].1)
    ensures aws.faults == old(aws.faults) ==>
              && (r.Ok? <==> NodeAcceptable(env, aws.world, catalog, rootChangeSet, rootStack, rootRecord, n))
              && (r.Ok? ==> aws.world.describe(n.changeSet) == Some(r.value))
  {
    hide Linked, Inventory, LiteralUrls, HasChild, HasRow, Nested, Chosen;
    changes := map[];
    if env.changeSetIdentity(n.changeSet) != env.changeSetIdentity(rootChangeSet)
       || env.stackIdentity(n.stack) != env.stackIdentity(rootStack) {
      return Err(IdentityInvalid), changes;
    }
    var d := aws.DescribeChangeSet(n.changeSet);
    if d == None || |d.value.changes| > MAX_CHANGE_RECORDS {
      return Err(ReadInvalid), changes;
    }
    if !Linked(rootChangeSet, n, d.value) || (n.parent.None? && !env.invocationMatches(d.value, rootRecord)) {
      return Err(LinkageInvalid), changes;
    }
    var proposed := aws.GetTemplate(n.changeSet);
    if proposed != Some(catalog[n.url]) {
      return Err(TemplateDiffers), changes;
    }
    if !LiteralUrls(proposed.value) {
      return Err(InventoryInvalid), changes;
    }
    var inventory := NestedChangeSets(env, proposed.value, d.value.changes);
    if inventory.Err? {
      return Err(inventory.error), changes;
    }
    changes := inventory.value;
    ChosenIsChild(env, proposed.value, d.value.changes, changes);
    return Ok(d.value), changes;
  }

  lemma ChosenIsChild(env: Env, t: Template, changes: seq<Change>, selected: map<string, (string, string)>)
    requires Chosen(t, changes, selected) && selected.Keys == Nested(t).Keys && Inventory(env, t, changes)
    ensures forall id :: id in selected ==>
              HasChild(changes, id, selected[id].0) && HasRow(changes, id, selected[id].0, selected[id].1)
  {
    hide Nested, ChangeOk;
    forall id | id in selected
      ensures HasChild(changes, id, selected[id].0) && HasRow(changes, id, selected[id].0, selected[id].1)
    {
      var c :| c in changes && c.logicalId == id;
      var i :| 0 <= i < |changes| && changes[i] == c;
    }
  }

  /** What AWS must hold for a child before it is queued. */
  predicate ChildAcceptable(env: Env, w: World, child: string, physical: string, parentStack: string,
                            rootStack: string) {
    w.describe(child).Some?
    && var d := w.describe(child).value;
       && |d.changes| <= MAX_CHANGE_RECORDS && env.stackIdentity(d.stackId).Some?
           && (physical == "" || physical == d.stackId)
       && w.stack(d.stackId).Some? && IsReviewStack(w.stack(d.stackId).value, d.stackId, Some(parentStack), rootStack)
  }

  /** The reads of a child before it is queued: its stack, and the record read of it, which must be of a stack under
      review nested in its parent's. */
  method ReviewChildStack(aws: Aws, env: Env, child: string, physical: string, parentStack: string, rootStack: string)
    returns (r: Result<string, ReviewError>, ghost record: Option<StackRecord>)
    modifies aws
    ensures aws.faults >= old(aws.faults) && old(aws.given) <= aws.given
    ensures r.Ok? ==> env.stackIdentity(r.value).Some? && (physical == "" || physical == r.value)
    ensures r.Ok? ==> exists d :: Described(child, d) in aws.given && d.stackId == r.value
    ensures r.Ok? ==> record.Some? && StackRead(r.value, record.value) in aws.given
                      && IsReviewStack(record.value, r.value, Some(parentStack), rootStack)
    ensures aws.faults == old(aws.faults) ==>
              && (r.Ok? <==> ChildAcceptable(env, aws.world, child, physical, parentStack, rootStack))
              && (r.Ok? ==> r.value == aws.world.describe(child).value.stackId)
  {
    record := None;
    var d := aws.DescribeChangeSet(child);
    if d == None || |d.value.changes| > MAX_CHANGE_RECORDS {
      return Err(ReadInvalid), record;
    }
    if env.stackIdentity(d.value.stackId).None? {
      return Err(IdentityInvalid), record;
    }
    if physical != "" && physical != d.value.stackId {
      return Err(LinkageInvalid), record;
    }
    var s := aws.DescribeStack(d.value.stackId);
    record := s;
    if s == None || !IsReviewStack(s.value, d.value.stackId, Some(parentStack), rootStack) {
      return Err(StackInvalid), record;
    }
    return Ok(d.value.stackId), record;
  }

  // What acceptance says about the sealed catalog

  /** Template `v` of the catalog nests template `u` as its resource `id`. */
  predicate Nests(catalog: Catalog, v: string, id: string, u: string) {
    v in catalog && id in Nested(catalog[v]) && Nested(catalog[v])[id] == u
  }

  ghost predicate Reaches(catalog: Catalog, from: string, u: string, n: nat)
    decreases n
  {
    if n == 0 then u == from
    else exists v, id :: Reaches(catalog, from, v, n - 1) && Nests(catalog, v, id, u)
  }

  /** The nesting of the sealed templates is a rooted tree that spans the catalog, of height at most eight. */
  ghost predicate SpanningTree(catalog: Catalog, root: string) {
    && root in catalog
    && (forall v, id, u :: Nests(catalog, v, id, u) ==> u in catalog && u != root)
    && (forall v, id, v2, id2, u :: Nests(catalog, v, id, u) && Nests(catalog, v2, id2, u) ==> v == v2 && id == id2)
    && (forall u :: u in catalog ==> exists n: nat :: n <= MAX_HIERARCHY_DEPTH && Reaches(catalog, root, u, n))
  }

  lemma NodeOf(catalog: Catalog, h: seq<Node>, u: string) returns (i: nat)
    requires NodeUrls(h) == catalog.Keys && u in catalog
    ensures i < |h| && h[i].url == u
  {
    var n :| n in h && n.url == u;
    i :| 0 <= i < |h| && h[i] == n;
  }

  /** A nested stack of an accepted catalog is realised by one node, whose parent is the nesting template's. */
  lemma Realised(env: Env, catalog: Catalog, root: Node, h: seq<Node>, seen: seq<Description>, v: string, id: string,
                 u: string)
    returns (p: nat, j: nat)
    requires Accepted(env, catalog, root, h, seen) && Nests(catalog, v, id, u)
    ensures p < j < |h| == |seen| && h[p].url == v && h[j].url == u && Edge(catalog, h[p], seen[p], id, h[j])
  {
    hide Edge, NodeReviewed, HasParent, Nested;
    p := NodeOf(catalog, h, v);
    assert HasNode(catalog, h[p], seen[p], id, h, p);
    j :| p < j < |h| && Edge(catalog, h[p], seen[p], id, h[j]);
    EdgeTarget(catalog, h[p], seen[p], id, h[j]);
  }

  lemma EdgeTarget(catalog: Catalog, p: Node, d: Description, id: string, n: Node)
    requires Edge(catalog, p, d, id, n)
    ensures Nests(catalog, p.url, id, n.url)
  {
  }

  lemma SameChild(env: Env, t: Template, changes: seq<Change>, id: string, id2: string, child: string)
    requires Inventory(env, t, changes) && HasChild(changes, id, child) && HasChild(changes, id2, child)
    requires id in Nested(t) && id2 in Nested(t)
    ensures id == id2
  {
    hide Nested, Readable;
    var i :| 0 <= i < |changes| && changes[i].logicalId == id && changes[i].childId == child;
    var j :| 0 <= j < |changes| && changes[j].logicalId == id2 && changes[j].childId == child;
    assert i == j;
  }

  lemma OneParent(env: Env, catalog: Catalog, root: Node, h: seq<Node>, seen: seq<Description>, v: string, id: string,
                  v2: string, id2: string, u: string)
    requires Accepted(env, catalog, root, h, seen) && Nests(catalog, v, id, u) && Nests(catalog, v2, id2, u)
    ensures v == v2 && id == id2
  {
    var p, j := Realised(env, catalog, root, h, seen, v, id, u);
    var q, k := Realised(env, catalog, root, h, seen, v2, id2, u);
    hide Nested, Inventory, HasParent, HasNode, HasChild;
    assert j == k;
    assert h[p].changeSet == h[q].changeSet;
    assert p == q;
    assert NodeReviewed(env, catalog, root, h[p], seen[p]);
    SameChild(env, catalog[v], seen[p].changes, id, id2, h[j].changeSet);
  }

  lemma {:induction false} NodeIsReached(env: Env, catalog: Catalog, root: Node, h: seq<Node>, seen: seq<Description>,
                                         i: nat)
    requires Accepted(env, catalog, root, h, seen) && i < |h|
    ensures Reaches(catalog, root.url, h[i].url, h[i].depth)
    decreases i
  {
    hide NodeReviewed, HasNode, DistinctNodes;
    if i > 0 {
      assert HasParent(catalog, h, seen, h[i], i);
      var p, id :| 0 <= p < i && p < |h| && p < |seen| && Edge(catalog, h[p], seen[p], id, h[i]);
      NodeIsReached(env, catalog, root, h, seen, p);
      EdgeTarget(catalog, h[p], seen[p], id, h[i]);
    }
  }

  /** An accepted review proves that the ten sealed templates form exactly one tree under the root template, and
      that the proposed hierarchy realises it node by node. */
  lemma AcceptedIsSpanningTree(env: Env, catalog: Catalog, root: Node, h: seq<Node>, seen: seq<Description>)
    requires Accepted(env, catalog, root, h, seen)
    ensures SpanningTree(catalog, root.url)
  {
    hide Edge, HasParent, HasNode, Nests;
    assert h[0] in h && h[0].url in NodeUrls(h);
    forall v, id, u | Nests(catalog, v, id, u) ensures u in catalog && u != root.url {
      var p, j := Realised(env, catalog, root, h, seen, v, id, u);
      assert h[j] in h && h[j].url in NodeUrls(h) && h[0].url != h[j].url;
    }
    forall v, id, v2, id2, u | Nests(catalog, v, id, u) && Nests(catalog, v2, id2, u) ensures v == v2 && id == id2 {
      OneParent(env, catalog, root, h, seen, v, id, v2, id2, u);
    }
    forall u | u in catalog ensures exists n: nat :: n <= MAX_HIERARCHY_DEPTH && Reaches(catalog, root.url, u, n) {
      var i := NodeOf(catalog, h, u);
      NodeIsReached(env, catalog, root, h, seen, i);
      assert NodeReviewed(env, catalog, root, h[i], seen[i]);
    }
  }

  /** The stacks realise the same tree: for every nesting of the sealed templates, the stack of the nested one was
      read as under review, with the stack of the nesting one as its parent. */
  lemma StacksMirrorTemplates(env: Env, given: set<Answer>, catalog: Catalog, root: Node, h: seq<Node>,
                              seen: seq<Description>, v: string, id: string, u: string) returns (p: nat, j: nat)
    requires Accepted(env, catalog, root, h, seen) && Evidence(env, given, catalog, root, h, seen, h)
             && Nests(catalog, v, id, u)
    ensures p < j < |h| && h[p].url == v && h[j].url == u && StackUnder(given, root, h[p], h[j])
  {
    p, j := Realised(env, catalog, root, h, seen, v, id, u);
    assert HasStackParent(given, root, h, h[j], j);
    var q :| 0 <= q < j && q < |h| && StackUnder(given, root, h[q], h[j]);
    EdgeUrl(catalog, h[p], seen[p], id, h[j]);
    SameParent(env, catalog, root, h, seen, p, q);
  }

  lemma SameParent(env: Env, catalog: Catalog, root: Node, h: seq<Node>, seen: seq<Description>, p: nat, q: nat)
    requires Accepted(env, catalog, root, h, seen) && p < |h| && q < |h| && h[p].changeSet == h[q].changeSet
    ensures p == q
  {
    hide NodeReviewed, HasParent, HasNode, NodeUrls;
  }

  /** Some record read during the review names this change set. */
  ghost predicate NamedBy(h: seq<Node>, seen: seq<Description>, changeSet: string) {
    exists i :: 0 <= i < |h| && i < |seen| && NamedIn(seen[i].changes, changeSet)
  }

  predicate NamedIn(changes: seq<Change>, changeSet: string) {
    exists c :: c in changes && c.childId == changeSet
  }

  /** A record that can only create. */
  predicate OnlyAdds(t: Template, c: Change) {
    || c.action == "Add"
    || (c.action == "Dynamic" && c.replacement == "" && c.policyAction == "" && c.physicalId == ""
        && c.logicalId !in Nested(t))
  }

  lemma RecordNames(env: Env, t: Template, c: Change)
    requires ChangeOk(env, t, c)
    ensures OnlyAdds(t, c) && (c.childId != "" ==> c.logicalId in Nested(t))
  {
  }

  /** A change set named by a node's record is that of the one node that realises the nested stack. */
  lemma NamedIsNode(env: Env, catalog: Catalog, root: Node, h: seq<Node>, seen: seq<Description>, i: nat, c: Change)
    returns (j: nat)
    requires Accepted(env, catalog, root, h, seen) && i < |h| && c in seen[i].changes && c.childId != ""
    ensures i < j < |h| && h[j].changeSet == c.childId && Edge(catalog, h[i], seen[i], c.logicalId, h[j])
  {
    hide HasParent, NodeUrls, Linked, Nested, ChangeOk;
    assert NodeReviewed(env, catalog, root, h[i], seen[i]);
    RecordNames(env, catalog[h[i].url], c);
    assert HasNode(catalog, h[i], seen[i], c.logicalId, h, i);
    j :| i < j < |h| && Edge(catalog, h[i], seen[i], c.logicalId, h[j]);
    SameRecord(seen[i].changes, c, h[j].changeSet);
  }

  lemma SameRecord(changes: seq<Change>, c: Change, child: string)
    requires DistinctIds(changes) && c in changes && HasChild(changes, c.logicalId, child)
    ensures c.childId == child
  {
  }

  /** Executing an accepted change set does nothing that was not reviewed: the change sets its records name, at
      any depth, are exactly those of the other nodes, each of them read and checked against its own sealed
      template; and no record of any of them can modify, replace or remove a resource. */
  lemma NothingUnreviewed(env: Env, catalog: Catalog, root: Node, h: seq<Node>, seen: seq<Description>)
    requires Accepted(env, catalog, root, h, seen)
    ensures forall cs :: cs != "" && NamedBy(h, seen, cs) ==> cs in NodeChangeSets(h) && cs != root.changeSet
    ensures forall cs :: cs in NodeChangeSets(h) && cs != root.changeSet ==> NamedBy(h, seen, cs)
    ensures forall i, c :: 0 <= i < |h| && c in seen[i].changes ==> OnlyAdds(catalog[h[i].url], c)
  {
    hide Nested, ChangeOk, NodeUrls, HasParent, Edge, OnlyAdds;
    forall cs | cs != "" && NamedBy(h, seen, cs) ensures cs in NodeChangeSets(h) && cs != root.changeSet {
      var i :| 0 <= i < |h| && i < |seen| && NamedIn(seen[i].changes, cs);
      var c :| c in seen[i].changes && c.childId == cs;
      var j := NamedIsNode(env, catalog, root, h, seen, i, c);
      assert h[j] in h && h[0].changeSet != h[j].changeSet;
    }
    forall cs | cs in NodeChangeSets(h) && cs != root.changeSet ensures NamedBy(h, seen, cs) {
      var n :| n in h && n.changeSet == cs;
      var j :| 0 <= j < |h| && h[j] == n;
      assert HasParent(catalog, h, seen, h[j], j);
      NodeIsNamed(catalog, h, seen, j);
    }
    forall i, c | 0 <= i < |h| && c in seen[i].changes ensures OnlyAdds(catalog[h[i].url], c) {
      assert NodeReviewed(env, catalog, root, h[i], seen[i]);
      RecordNames(env, catalog[h[i].url], c);
    }
  }

  lemma NodeIsNamed(catalog: Catalog, h: seq<Node>, seen: seq<Description>, j: nat)
    requires j < |h| && HasParent(catalog, h, seen, h[j], j)
    ensures NamedBy(h, seen, h[j].changeSet)
  {
    hide Nested;
    var p, id :| 0 <= p < j && p < |h| && p < |seen| && Edge(catalog, h[p], seen[p], id, h[j]);
    assert NamedIn(seen[p].changes, h[j].changeSet);
  }
}
