/** Assembling a support bundle from the collected inventories, and the canonical-order check it
    must pass (cmd/stewardctl/control_support_bundle.go). */
module SupportBundle {
  import opened Common
  import opened Ordering

  datatype Node = Node(id: string, body: string)

  datatype Deployment = Deployment(tenant: string, id: string, body: string)

  /** What was collected for one tenant. */
  datatype Inventory = Inventory(tenant: string, deployments: seq<Deployment>, nodes: seq<Node>)

  /** `evidence` holds the node ID of each evidence entry. */
  datatype Bundle = Bundle(
    scope: string, tenants: seq<string>, nodes: seq<Node>, deployments: seq<Deployment>, evidence: seq<string>)

  predicate NodeAtMost(a: Node, b: Node) {
    AtMost(a.id, b.id)
  }

  /** Deployments order by tenant, then by deployment ID. */
  predicate KeyLess(a: Deployment, b: Deployment) {
    Less(a.tenant, b.tenant) || (a.tenant == b.tenant && Less(a.id, b.id))
  }

  predicate KeyAtMost(a: Deployment, b: Deployment) {
    !KeyLess(b, a)
  }

  predicate SameKey(a: Deployment, b: Deployment) {
    a.tenant == b.tenant && a.id == b.id
  }

  /** The order a bundle promises, stated for every pair of entries. */
  ghost predicate Canonical(b: Bundle, validId: string -> bool) {
    && (forall i, j :: 0 <= i < j < |b.tenants| ==> Less(b.tenants[i], b.tenants[j]))
    && (forall i, j :: 0 <= i < j < |b.nodes| ==> Less(b.nodes[i].id, b.nodes[j].id))
    && (forall i, j :: 0 <= i < j < |b.deployments| ==> KeyLess(b.deployments[i], b.deployments[j]))
    && (forall i :: 0 <= i < |b.nodes| ==> validId(b.nodes[i].id))
    && (b.scope == "" ==> EvidenceMatches(b))
  }

  predicate EvidenceMatches(b: Bundle) {
    |b.evidence| == |b.nodes| && forall i :: 0 <= i < |b.nodes| ==> b.evidence[i] == b.nodes[i].id
  }

  lemma KeyTotal(a: Deployment, b: Deployment)
    ensures KeyAtMost(a, b) || KeyAtMost(b, a)
    ensures KeyLess(a, b) <==> KeyAtMost(a, b) && !SameKey(a, b)
    ensures !KeyLess(a, a)
  {
    LessTrichotomy(a.tenant, b.tenant);
    LessTrichotomy(a.id, b.id);
    LessTrichotomy(a.tenant, a.tenant);
    LessTrichotomy(a.id, a.id);
  }

  lemma KeyTransitive(a: Deployment, b: Deployment, c: Deployment)
    requires KeyAtMost(a, b) && KeyAtMost(b, c)
    ensures KeyAtMost(a, c)
    ensures KeyLess(a, b) && KeyLess(b, c) ==> KeyLess(a, c)
  {
    LessTrichotomy(a.tenant, b.tenant);
    LessTrichotomy(b.tenant, c.tenant);
    LessTrichotomy(a.tenant, c.tenant);
    LessTransitive(a.tenant, b.tenant, c.tenant);
    if a.tenant == b.tenant == c.tenant {
      LessTransitive(a.id, b.id, c.id);
    }
  }

  lemma KeyAtMostIsTotalPreorder()
    ensures TotalPreorder(KeyAtMost)
  {
    forall a, b ensures KeyAtMost(a, b) || KeyAtMost(b, a) {
      KeyTotal(a, b);
    }
    forall a, b, c | KeyAtMost(a, b) && KeyAtMost(b, c) ensures KeyAtMost(a, c) {
      KeyTransitive(a, b, c);
    }
  }

  lemma NodeAtMostIsTotalPreorder()
    ensures TotalPreorder(NodeAtMost)
  {
    forall a: Node, b: Node ensures NodeAtMost(a, b) || NodeAtMost(b, a) {
      LessTrichotomy(a.id, b.id);
    }
    forall a: Node, b: Node, c: Node | NodeAtMost(a, b) && NodeAtMost(b, c) ensures NodeAtMost(a, c) {
      LessTransitive(a.id, b.id, c.id);
    }
  }

  // ---------------------------------------------------------------- the canonical-order check

  method TenantsAscend(tenants: seq<string>) returns (ok: bool)
    ensures ok <==> StrictlyAscending(tenants)
  {
    for index := 0 to |tenants|
      invariant forall i, j :: 0 <= i < j < index ==> Less(tenants[i], tenants[j])
    {
      if index > 0 {
        LessTrichotomy(tenants[index - 1], tenants[index]);
        if AtMost(tenants[index], tenants[index - 1]) {
          return false;
        }
        forall i | 0 <= i < index ensures Less(tenants[i], tenants[index]) {
          if i < index - 1 {
            LessTrichotomy(tenants[i], tenants[index - 1]);
            LessTransitive(tenants[i], tenants[index - 1], tenants[index]);
          }
        }
      }
    }
    return true;
  }

  method DeploymentsAscend(deployments: seq<Deployment>) returns (ok: bool)
    ensures ok <==> forall i, j :: 0 <= i < j < |deployments| ==> KeyLess(deployments[i], deployments[j])
  {
    var index := 1;
    while index < |deployments|
      invariant 1 <= index
      invariant forall i, j :: 0 <= i < j < index && j < |deployments| ==> KeyLess(deployments[i], deployments[j])
    {
      var left, right := deployments[index - 1], deployments[index];
      KeyTotal(left, right);
      LessTrichotomy(left.tenant, right.tenant);
      if Less(right.tenant, left.tenant) || (left.tenant == right.tenant && AtMost(right.id, left.id)) {
        return false;
      }
      forall i | 0 <= i < index ensures KeyLess(deployments[i], right) {
        if i < index - 1 {
          KeyTotal(deployments[i], left);
          KeyTransitive(deployments[i], left, right);
        }
      }
      index := index + 1;
    }
    return true;
  }

  /** `supportBundleCanonicalOrder`, called once the evidence is known to be as long as the nodes. */
  method CanonicalOrder(b: Bundle, validId: string -> bool) returns (ok: bool)
    requires b.scope == "" ==> |b.evidence| == |b.nodes|
    ensures ok <==> Canonical(b, validId)
  {
    ok := TenantsAscend(b.tenants);
    if !ok {
      return;
    }
    for index := 0 to |b.nodes|
      invariant forall i :: 0 <= i < index ==> validId(b.nodes[i].id) && (b.scope == "" ==> b.evidence[i] == b.nodes[i].id)
      invariant forall i, j :: 0 <= i < j < index ==> Less(b.nodes[i].id, b.nodes[j].id)
    {
      if !validId(b.nodes[index].id) || (b.scope == "" && b.evidence[index] != b.nodes[index].id) {
        return false;
      }
      if index > 0 {
        LessTrichotomy(b.nodes[index - 1].id, b.nodes[index].id);
        if AtMost(b.nodes[index].id, b.nodes[index - 1].id) {
          return false;
        }
        forall i | 0 <= i < index ensures Less(b.nodes[i].id, b.nodes[index].id) {
          if i < index - 1 {
            LessTrichotomy(b.nodes[i].id, b.nodes[index - 1].id);
            LessTransitive(b.nodes[i].id, b.nodes[index - 1].id, b.nodes[index].id);
          }
        }
      }
    }
    ok := DeploymentsAscend(b.deployments);
  }

  // ---------------------------------------------------------------- merging nodes

  /** A node is listed by some tenant. */
  ghost predicate Listed(invs: seq<Inventory>, n: Node) {
    exists t :: 0 <= t < |invs| && n in invs[t].nodes
  }

  /** No two tenants list one node ID with different contents. */
  ghost predicate Consistent(invs: seq<Inventory>) {
    forall m, n :: Listed(invs, m) && Listed(invs, n) && m.id == n.id ==> m == n
  }

  /** The merge table holds exactly the nodes of a set, by ID. */
  ghost predicate Holds(byId: map<string, Node>, listed: iset<Node>) {
    && (forall id :: id in byId ==> byId[id].id == id && byId[id] in listed)
    && (forall n :: n in listed ==> n.id in byId && byId[n.id] == n)
  }

  ghost function ListedSet(invs: seq<Inventory>): iset<Node> {
    iset n | Listed(invs, n)
  }

  method MergeList(byId: map<string, Node>, nodes: seq<Node>, ghost listed: iset<Node>)
    returns (r: Option<map<string, Node>>)
    requires Holds(byId, listed)
    ensures r.Some? ==> Holds(r.value, listed + iset n | n in nodes)
    ensures r.None? ==> exists m, n :: m in listed + (iset n | n in nodes) && n in nodes && m.id == n.id && m != n
  {
    var table := byId;
    for i := 0 to |nodes|
      invariant Holds(table, listed + iset n | n in nodes[..i])
    {
      var node := nodes[i];
      if node.id in table && table[node.id] != node {
        assert table[node.id] in listed + (iset n | n in nodes) && node in nodes;
        return None;
      }
      assert forall n :: n in nodes[..i + 1] <==> n in nodes[..i] || n == node;
      table := table[node.id := node];
    }
    assert nodes[..|nodes|] == nodes;
    return Some(table);
  }

  lemma ListedGrows(invs: seq<Inventory>, i: nat)
    requires i < |invs|
    ensures ListedSet(invs[..i + 1]) == ListedSet(invs[..i]) + iset n | n in invs[i].nodes
  {
    var was, now := invs[..i], invs[..i + 1];
    forall n ensures Listed(now, n) <==> Listed(was, n) || n in invs[i].nodes {
      if Listed(was, n) {
        var t :| 0 <= t < i && n in was[t].nodes;
        assert n in now[t].nodes;
      }
      if n in invs[i].nodes {
        assert n in now[i].nodes;
      }
      if Listed(now, n) && n !in invs[i].nodes {
        var t :| 0 <= t < i + 1 && n in now[t].nodes;
        assert n in was[t].nodes;
      }
    }
  }

  /** The nodes of a table in some order, as ranging over a Go map gives them. */
  method Values(byId: map<string, Node>, ghost listed: iset<Node>) returns (r: seq<Node>)
    requires Holds(byId, listed)
    ensures forall n :: n in r <==> n in listed
    ensures forall i, j :: 0 <= i < j < |r| ==> r[i].id != r[j].id
  {
    r := [];
    var left := byId.Keys;
    while left != {}
      invariant left <= byId.Keys
      invariant forall i :: 0 <= i < |r| ==> r[i].id in byId && r[i].id !in left && r[i] == byId[r[i].id]
      invariant forall id :: id in byId && id !in left ==> byId[id] in r
      invariant forall i, j :: 0 <= i < j < |r| ==> r[i].id != r[j].id
      decreases left
    {
      var id :| id in left;
      r := r + [byId[id]];
      left := left - {id};
    }
    forall n ensures n in r <==> n in listed {
      if n in listed {
        assert n.id in byId && byId[n.id] == n;
      }
    }
  }

  /** A sorted list of nodes with distinct IDs is strictly ascending. */
  lemma SortedNodesAscend(was: seq<Node>, r: seq<Node>)
    requires SortedBy(r, NodeAtMost) && multiset(r) == multiset(was)
    requires forall i, j :: 0 <= i < j < |was| ==> was[i].id != was[j].id
    ensures forall i, j :: 0 <= i < j < |r| ==> Less(r[i].id, r[j].id)
  {
    forall i, j | 0 <= i < j < |r| ensures Less(r[i].id, r[j].id) {
      LessTrichotomy(r[i].id, r[j].id);
      if r[i].id == r[j].id {
        SameElements(r, was);
        assert r[i] in was && r[j] in was;
        RepeatCounts(r, i, j);
        OnceCounts(was);
      }
    }
  }

  /** The merged node list: none when two tenants disagree about a node, else the strictly
      ascending union over all tenants. */
  method MergeNodes(invs: seq<Inventory>) returns (r: Option<seq<Node>>)
    ensures r.Some? <==> Consistent(invs)
    ensures r.Some? ==> forall n :: n in r.value <==> Listed(invs, n)
    ensures r.Some? ==> forall i, j :: 0 <= i < j < |r.value| ==> Less(r.value[i].id, r.value[j].id)
  {
    var byId: map<string, Node> := map[];
    assert ListedSet(invs[..0]) == iset{};
    for i := 0 to |invs|
      invariant Holds(byId, ListedSet(invs[..i]))
    {
      ListedGrows(invs, i);
      var merged := MergeList(byId, invs[i].nodes, ListedSet(invs[..i]));
      if merged.None? {
        ghost var m, n :| m in ListedSet(invs[..i + 1]) && n in invs[i].nodes && m.id == n.id && m != n;
        ListedLater(invs, i + 1, m);
        assert Listed(invs, n);
        return None;
      }
      byId := merged.value;
    }
    assert invs[..|invs|] == invs;
    HoldsConsistent(byId, invs);
    var nodes := Values(byId, ListedSet(invs));
    NodeAtMostIsTotalPreorder();
    var sorted := Sort(nodes, NodeAtMost);
    SortedNodesAscend(nodes, sorted);
    r := Some(sorted);
  }

  lemma ListedLater(invs: seq<Inventory>, i: nat, n: Node)
    requires i <= |invs| && Listed(invs[..i], n)
    ensures Listed(invs, n)
  {
    var t :| 0 <= t < i && n in invs[..i][t].nodes;
    assert n in invs[t].nodes;
  }

  lemma HoldsConsistent(byId: map<string, Node>, invs: seq<Inventory>)
    requires Holds(byId, ListedSet(invs))
    ensures Consistent(invs)
  {
    forall m, n | Listed(invs, m) && Listed(invs, n) && m.id == n.id ensures m == n {
      assert m in ListedSet(invs) && n in ListedSet(invs);
    }
  }

  // ---------------------------------------------------------------- the whole bundle

  function AllDeployments(invs: seq<Inventory>): seq<Deployment> {
    if invs == [] then [] else AllDeployments(invs[..|invs| - 1]) + invs[|invs| - 1].deployments
  }

  function Tenants(invs: seq<Inventory>): seq<string> {
    seq(|invs|, i requires 0 <= i < |invs| => invs[i].tenant)
  }

  /** No deployment key occurs twice. */
  ghost predicate KeysOnce(ds: multiset<Deployment>) {
    forall a, b :: a in ds && b in ds && SameKey(a, b) ==> a == b && ds[a] == 1
  }

  /** Sorting puts deployments in strict order exactly when no key occurs twice. */
  lemma SortedDeploymentsAscendIff(r: seq<Deployment>)
    requires SortedBy(r, KeyAtMost)
    ensures (forall i, j :: 0 <= i < j < |r| ==> KeyLess(r[i], r[j])) <==> KeysOnce(multiset(r))
  {
    if KeysOnce(multiset(r)) {
      forall i, j | 0 <= i < j < |r| ensures KeyLess(r[i], r[j]) {
        KeyTotal(r[i], r[j]);
        if SameKey(r[i], r[j]) {
          assert r[i] in multiset(r) && r[j] in multiset(r);
          RepeatCounts(r, i, j);
        }
      }
    }
    if forall i, j :: 0 <= i < j < |r| ==> KeyLess(r[i], r[j]) {
      AscendingKeysOnce(r);
    }
  }

  lemma AscendingKeysOnce(r: seq<Deployment>)
    requires forall i, j :: 0 <= i < j < |r| ==> KeyLess(r[i], r[j])
    ensures KeysOnce(multiset(r))
  {
    forall i, j | 0 <= i < j < |r| ensures !SameKey(r[i], r[j]) {
      KeyTotal(r[i], r[j]);
    }
    OnceCounts(r);
    forall a, b | a in multiset(r) && b in multiset(r) && SameKey(a, b) ensures a == b && multiset(r)[a] == 1 {
      var i :| 0 <= i < |r| && r[i] == a;
      var j :| 0 <= j < |r| && r[j] == b;
      assert i == j;
    }
  }

  /** What a keyset server lists for a tenant: its own deployments, in strict ID order. */
  ghost predicate KeysetListing(inv: Inventory) {
    && (forall i :: 0 <= i < |inv.deployments| ==> inv.deployments[i].tenant == inv.tenant)
    && (forall i, j :: 0 <= i < j < |inv.deployments| ==> Less(inv.deployments[i].id, inv.deployments[j].id))
  }

  ghost predicate Names(invs: seq<Inventory>, tenant: string) {
    exists t :: 0 <= t < |invs| && invs[t].tenant == tenant
  }

  lemma {:induction false} AllDeploymentsAscend(invs: seq<Inventory>)
    requires forall t :: 0 <= t < |invs| ==> KeysetListing(invs[t])
    requires forall s, t :: 0 <= s < t < |invs| ==> Less(invs[s].tenant, invs[t].tenant)
    ensures forall d :: d in AllDeployments(invs) ==> Names(invs, d.tenant)
    ensures forall i, j :: 0 <= i < j < |AllDeployments(invs)| ==> KeyLess(AllDeployments(invs)[i], AllDeployments(invs)[j])
  {
    if invs == [] {
    } else {
      var k := |invs| - 1;
      AllDeploymentsAscend(invs[..k]);
      var before, all := AllDeployments(invs[..k]), AllDeployments(invs);
      forall tenant | Names(invs[..k], tenant) ensures Names(invs, tenant) && Less(tenant, invs[k].tenant) {
        var t :| 0 <= t < |invs[..k]| && invs[..k][t].tenant == tenant;
        assert invs[t].tenant == tenant;
      }
      assert Names(invs, invs[k].tenant);
      forall i, j | 0 <= i < j < |all| ensures KeyLess(all[i], all[j]) {
        if i < |before| <= j {
          assert before[i] in before && all[j] == invs[k].deployments[j - |before|];
        }
      }
    }
  }

  /** From keyset servers the deployments never repeat a key, so the bundle is in canonical order. */
  lemma KeysetListingsNeverRepeat(invs: seq<Inventory>)
    requires forall t :: 0 <= t < |invs| ==> KeysetListing(invs[t])
    requires StrictlyAscending(Tenants(invs))
    ensures KeysOnce(multiset(AllDeployments(invs)))
  {
    forall s, t | 0 <= s < t < |invs| ensures Less(invs[s].tenant, invs[t].tenant) {
      assert Tenants(invs)[s] == invs[s].tenant && Tenants(invs)[t] == invs[t].tenant;
    }
    AllDeploymentsAscend(invs);
    AscendingKeysOnce(AllDeployments(invs));
  }

  /** `collectControlSupportBundle` from the collected inventories on: merge, sort, and for a
      site bundle one evidence entry per node.  A bundle exists exactly when the tenants agree
      on every node; it lists every node once and every deployment; and it passes the
      canonical-order check exactly when the server listed tenants in ascending order, no
      deployment twice, and only valid node IDs. */
  method Assemble(invs: seq<Inventory>, scope: string, validId: string -> bool) returns (r: Option<Bundle>)
    ensures r.Some? <==> Consistent(invs)
    ensures r.Some? ==> r.value.scope == scope && r.value.tenants == Tenants(invs)
    ensures r.Some? ==> forall n :: n in r.value.nodes <==> Listed(invs, n)
    ensures r.Some? ==> multiset(r.value.deployments) == multiset(AllDeployments(invs))
    ensures r.Some? ==> (scope == "" ==> EvidenceMatches(r.value))
    ensures r.Some? ==>
              (Canonical(r.value, validId) <==>
                && StrictlyAscending(Tenants(invs))
                && KeysOnce(multiset(AllDeployments(invs)))
                && forall n :: Listed(invs, n) ==> validId(n.id))
  {
    var tenants: seq<string> := [];
    var deployments: seq<Deployment> := [];
    for i := 0 to |invs|
      invariant tenants == Tenants(invs[..i])
      invariant deployments == AllDeployments(invs[..i])
    {
      assert invs[..i + 1][..i] == invs[..i];
      tenants := tenants + [invs[i].tenant];
      deployments := deployments + invs[i].deployments;
    }
    assert invs[..|invs|] == invs;
    var merged := MergeNodes(invs);
    if merged.None? {
      return None;
    }
    KeyAtMostIsTotalPreorder();
    var sorted := Sort(deployments, KeyAtMost);
    var evidence: seq<string> := [];
    if scope == "" {
      evidence := CollectEvidence(merged.value);
    }
    var bundle := Bundle(scope, tenants, merged.value, sorted, evidence);
    SortedDeploymentsAscendIff(sorted);
    assert StrictlyAscending(tenants) <==> forall i, j :: 0 <= i < j < |tenants| ==> Less(tenants[i], tenants[j]);
    ValidEverywhere(merged.value, invs, validId);
    r := Some(bundle);
  }

  method CollectEvidence(nodes: seq<Node>) returns (evidence: seq<string>)
    ensures |evidence| == |nodes| && forall i :: 0 <= i < |nodes| ==> evidence[i] == nodes[i].id
  {
    evidence := [];
    for i := 0 to |nodes|
      invariant |evidence| == i && forall j :: 0 <= j < i ==> evidence[j] == nodes[j].id
    {
      evidence := evidence + [nodes[i].id];
    }
  }

  lemma ValidEverywhere(nodes: seq<Node>, invs: seq<Inventory>, validId: string -> bool)
    requires forall n :: n in nodes <==> Listed(invs, n)
    ensures (forall i :: 0 <= i < |nodes| ==> validId(nodes[i].id)) <==> (forall n :: Listed(invs, n) ==> validId(n.id))
  {
    if forall i :: 0 <= i < |nodes| ==> validId(nodes[i].id) {
      forall n | Listed(invs, n) ensures validId(n.id) {
        assert n in nodes;
      }
    }
    if forall n :: Listed(invs, n) ==> validId(n.id) {
      forall i | 0 <= i < |nodes| ensures validId(nodes[i].id) {
        assert Listed(invs, nodes[i]);
      }
    }
  }
}
