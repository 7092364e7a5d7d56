/** The Gateway effects readiness check (cmd/stewardctl/gateway_effects.go): does the installed
    configuration grant exactly the action authority that the signed tenant policy gives an
    instance? */
module EffectsReadiness {
  import opened Common
  import opened Ordering

  datatype Authority = Authority(keyId: string, tenant: string, publicKey: string)

  datatype Connector = Connector(id: string, authorityIds: seq<string>)

  datatype Budget = Budget(tenant: string, bytes: int)

  datatype Config = Config(node: string, authorities: seq<Authority>, connectors: seq<Connector>, budgets: seq<Budget>)

  datatype Intent = Intent(node: string, tenant: string, connectorIds: seq<string>)

  datatype ActionKey = ActionKey(keyId: string, publicKey: string, connectorIds: seq<string>)

  /** Tables by ID; of two entries with one ID the later wins. */
  function AuthorityMap(s: seq<Authority>): map<string, Authority> {
    if s == [] then map[] else AuthorityMap(s[..|s| - 1])[s[|s| - 1].keyId := s[|s| - 1]]
  }

  function ConnectorMap(s: seq<Connector>): map<string, Connector> {
    if s == [] then map[] else ConnectorMap(s[..|s| - 1])[s[|s| - 1].id := s[|s| - 1]]
  }

  function KeyIds(keys: seq<ActionKey>): seq<string> {
    seq(|keys|, i requires 0 <= i < |keys| => keys[i].keyId)
  }

  /** One `keyId` for each time the list names the connector. */
  function Mentions(connectorIds: seq<string>, c: string, keyId: string): seq<string> {
    if connectorIds == [] then []
    else
      var k := |connectorIds| - 1;
      Mentions(connectorIds[..k], c, keyId) + if connectorIds[k] == c then [keyId] else []
  }

  /** The signed keys naming a connector, in policy order. */
  function Signed(keys: seq<ActionKey>, c: string): seq<string> {
    if keys == [] then []
    else
      var k := |keys| - 1;
      Signed(keys[..k], c) + Mentions(keys[k].connectorIds, c, keys[k].keyId)
  }

  predicate AuthorityMatches(config: Config, intent: Intent, key: ActionKey) {
    var m := AuthorityMap(config.authorities);
    key.keyId in m && m[key.keyId].tenant == intent.tenant && m[key.keyId].publicKey == key.publicKey
  }

  predicate InScope(intent: Intent, key: ActionKey) {
    forall i :: 0 <= i < |key.connectorIds| ==> key.connectorIds[i] in intent.connectorIds
  }

  predicate ScopeMatches(config: Config, keys: seq<ActionKey>, c: string) {
    var m := ConnectorMap(config.connectors);
    c in m && Signed(keys, c) != [] && m[c].authorityIds == SortedStrings(Signed(keys, c))
  }

  predicate Budgeted(config: Config, tenant: string) {
    exists i :: 0 <= i < |config.budgets| && config.budgets[i].tenant == tenant
  }

  predicate Ready(config: Config, intent: Intent, keys: seq<ActionKey>) {
    && config.node == intent.node
    && (forall i :: 0 <= i < |keys| ==> AuthorityMatches(config, intent, keys[i]) && InScope(intent, keys[i]))
    && (forall i :: 0 <= i < |intent.connectorIds| ==> ScopeMatches(config, keys, intent.connectorIds[i]))
    && Budgeted(config, intent.tenant)
  }

  // ---------------------------------------------------------------- the code

  method TableOfAuthorities(s: seq<Authority>) returns (m: map<string, Authority>)
    ensures m == AuthorityMap(s)
  {
    m := map[];
    for i := 0 to |s|
      invariant m == AuthorityMap(s[..i])
    {
      assert s[..i + 1][..i] == s[..i];
      m := m[s[i].keyId := s[i]];
    }
    assert s[..|s|] == s;
  }

  method TableOfConnectors(s: seq<Connector>) returns (m: map<string, Connector>)
    ensures m == ConnectorMap(s)
  {
    m := map[];
    for i := 0 to |s|
      invariant m == ConnectorMap(s[..i])
    {
      assert s[..i + 1][..i] == s[..i];
      m := m[s[i].id := s[i]];
    }
    assert s[..|s|] == s;
  }

  /** Add one signed key to the expected lists of the connectors it names; none when it names one
      that was not selected. */
  method Expect(expected: map<string, seq<string>>, key: ActionKey) returns (ok: bool, r: map<string, seq<string>>)
    ensures ok <==> forall i :: 0 <= i < |key.connectorIds| ==> key.connectorIds[i] in expected
    ensures ok ==> r.Keys == expected.Keys
    ensures ok ==> forall c :: c in expected ==> r[c] == expected[c] + Mentions(key.connectorIds, c, key.keyId)
  {
    r := expected;
    for i := 0 to |key.connectorIds|
      invariant forall j :: 0 <= j < i ==> key.connectorIds[j] in expected
      invariant r.Keys == expected.Keys
      invariant forall c :: c in expected ==> r[c] == expected[c] + Mentions(key.connectorIds[..i], c, key.keyId)
    {
      assert key.connectorIds[..i + 1][..i] == key.connectorIds[..i];
      var c := key.connectorIds[i];
      if c !in r {
        return false, r;
      }
      r := r[c := r[c] + [key.keyId]];
    }
    assert key.connectorIds[..|key.connectorIds|] == key.connectorIds;
    ok := true;
  }

  method ExpectAll(config: Config, intent: Intent, keys: seq<ActionKey>)
    returns (ok: bool, expected: map<string, seq<string>>, keyIds: seq<string>)
    ensures ok <==> forall i :: 0 <= i < |keys| ==> AuthorityMatches(config, intent, keys[i]) && InScope(intent, keys[i])
    ensures ok ==> keyIds == KeyIds(keys)
    ensures ok ==> forall c :: c in intent.connectorIds ==> c in expected && expected[c] == Signed(keys, c)
  {
    var configured := TableOfAuthorities(config.authorities);
    expected := map c | c in intent.connectorIds :: [];
    keyIds := [];
    for i := 0 to |keys|
      invariant forall j :: 0 <= j < i ==> AuthorityMatches(config, intent, keys[j]) && InScope(intent, keys[j])
      invariant keyIds == KeyIds(keys[..i])
      invariant forall c :: c in expected <==> c in intent.connectorIds
      invariant forall c :: c in expected ==> expected[c] == Signed(keys[..i], c)
    {
      assert keys[..i + 1][..i] == keys[..i];
      var key := keys[i];
      if key.keyId !in configured || configured[key.keyId].tenant != intent.tenant || configured[key.keyId].publicKey != key.publicKey {
        return false, expected, keyIds;
      }
      keyIds := keyIds + [key.keyId];
      ok, expected := Expect(expected, key);
      if !ok {
        return;
      }
    }
    assert keys[..|keys|] == keys;
    ok := true;
  }

  method CheckScope(authorityIds: seq<string>, expected: seq<string>) returns (ok: bool)
    ensures ok <==> expected != [] && authorityIds == SortedStrings(expected)
  {
    var sorted := SortedStrings(expected);
    SameElements(sorted, expected);
    ok := |sorted| != 0 && authorityIds == sorted;
  }

  /** Every selected connector lists exactly the sorted keys expected of it. */
  method CheckScopes(config: Config, intent: Intent, keys: seq<ActionKey>, expected: map<string, seq<string>>) returns (ok: bool)
    requires forall c :: c in intent.connectorIds ==> c in expected && expected[c] == Signed(keys, c)
    ensures ok <==> forall i :: 0 <= i < |intent.connectorIds| ==> ScopeMatches(config, keys, intent.connectorIds[i])
  {
    var configured := TableOfConnectors(config.connectors);
    for i := 0 to |intent.connectorIds|
      invariant forall j :: 0 <= j < i ==> ScopeMatches(config, keys, intent.connectorIds[j])
    {
      var c := intent.connectorIds[i];
      if c !in configured {
        return false;
      }
      var matches := CheckScope(configured[c].authorityIds, expected[c]);
      if !matches {
        return false;
      }
    }
    return true;
  }

  /** The tenant's first budget. */
  method FindBudget(budgets: seq<Budget>, tenant: string) returns (r: Option<int>)
    ensures r.None? <==> forall i :: 0 <= i < |budgets| ==> budgets[i].tenant != tenant
    ensures r.Some? ==> FirstBudget(budgets, tenant, r.value)
  {
    for i := 0 to |budgets|
      invariant forall j :: 0 <= j < i ==> budgets[j].tenant != tenant
    {
      if budgets[i].tenant == tenant {
        assert budgets[i] == Budget(tenant, budgets[i].bytes);
        return Some(budgets[i].bytes);
      }
    }
    return None;
  }

  predicate FirstBudget(budgets: seq<Budget>, tenant: string, bytes: int) {
    exists i :: 0 <= i < |budgets| && budgets[i] == Budget(tenant, bytes)
      && forall j :: 0 <= j < i ==> budgets[j].tenant != tenant
  }

  /** `checkGatewayEffectsBindings`: the sorted key IDs and the tenant's first budget. */
  method Check(config: Config, intent: Intent, keys: seq<ActionKey>) returns (r: Option<(seq<string>, int)>)
    ensures r.Some? <==> Ready(config, intent, keys)
    ensures r.Some? ==> r.value.0 == SortedStrings(KeyIds(keys)) && FirstBudget(config.budgets, intent.tenant, r.value.1)
  {
    if config.node != intent.node {
      return None;
    }
    var ok, expected, keyIds := ExpectAll(config, intent, keys);
    if !ok {
      return None;
    }
    keyIds := SortedStrings(keyIds);
    ok := CheckScopes(config, intent, keys, expected);
    if !ok {
      return None;
    }
    var budget := FindBudget(config.budgets, intent.tenant);
    if budget.None? {
      return None;
    }
    return Some((keyIds, budget.value));
  }

  // ---------------------------------------------------------------- what readiness means

  /** Nothing is listed twice under one ID. */
  ghost predicate Unique(config: Config, keys: seq<ActionKey>) {
    && (forall i, j :: 0 <= i < j < |config.authorities| ==> config.authorities[i].keyId != config.authorities[j].keyId)
    && (forall i, j :: 0 <= i < j < |config.connectors| ==> config.connectors[i].id != config.connectors[j].id)
    && (forall i, j :: 0 <= i < j < |keys| ==> keys[i].keyId != keys[j].keyId)
    && (forall i :: 0 <= i < |keys| ==> Distinct(keys[i].connectorIds))
  }

  /** The key is signed for the connector. */
  ghost predicate Grants(keys: seq<ActionKey>, keyId: string, c: string) {
    exists i :: 0 <= i < |keys| && keys[i].keyId == keyId && c in keys[i].connectorIds
  }

  /** The list is, in strict order, exactly the signed keys naming the connector, and not empty. */
  ghost predicate ExactScope(authorityIds: seq<string>, keys: seq<ActionKey>, c: string) {
    && authorityIds != [] && StrictlyAscending(authorityIds)
    && forall keyId :: keyId in authorityIds <==> Grants(keys, keyId, c)
  }

  ghost predicate Exact(config: Config, intent: Intent, keys: seq<ActionKey>) {
    && config.node == intent.node
    && (forall i :: 0 <= i < |keys| ==>
          Authority(keys[i].keyId, intent.tenant, keys[i].publicKey) in config.authorities && InScope(intent, keys[i]))
    && (forall c :: c in intent.connectorIds ==>
          exists k :: 0 <= k < |config.connectors| && config.connectors[k].id == c && ExactScope(config.connectors[k].authorityIds, keys, c))
    && Budgeted(config, intent.tenant)
  }

  lemma {:induction false} AuthorityMapFinds(s: seq<Authority>, id: string)
    requires forall i, j :: 0 <= i < j < |s| ==> s[i].keyId != s[j].keyId
    ensures id in AuthorityMap(s) ==> AuthorityMap(s)[id] in s && AuthorityMap(s)[id].keyId == id
    ensures forall i :: 0 <= i < |s| && s[i].keyId == id ==> id in AuthorityMap(s) && AuthorityMap(s)[id] == s[i]
  {
    if s == [] {
    } else {
      AuthorityMapFinds(s[..|s| - 1], id);
    }
  }

  lemma {:induction false} ConnectorMapFinds(s: seq<Connector>, id: string)
    requires forall i, j :: 0 <= i < j < |s| ==> s[i].id != s[j].id
    ensures id in ConnectorMap(s) ==> exists i :: 0 <= i < |s| && s[i].id == id
    ensures forall i :: 0 <= i < |s| && s[i].id == id ==> id in ConnectorMap(s) && ConnectorMap(s)[id] == s[i]
  {
    if s == [] {
    } else {
      var k := |s| - 1;
      ConnectorMapFinds(s[..k], id);
      if id in ConnectorMap(s) && s[k].id != id {
        var i :| 0 <= i < |s[..k]| && s[..k][i].id == id;
        assert s[i].id == id;
      } else if id in ConnectorMap(s) {
        assert s[k].id == id;
      }
    }
  }

  lemma {:induction false} MentionsOnce(ids: seq<string>, c: string, keyId: string)
    requires Distinct(ids)
    ensures Mentions(ids, c, keyId) == if c in ids then [keyId] else []
  {
    if ids == [] {
    } else {
      var k := |ids| - 1;
      MentionsOnce(ids[..k], c, keyId);
      assert ids == ids[..k] + [ids[k]];
      assert ids[k] !in ids[..k];
    }
  }

  /** With unique keys the signed list has each key once, and exactly those that name the
      connector. */
  lemma {:induction false} SignedIsGranted(keys: seq<ActionKey>, c: string)
    requires forall i, j :: 0 <= i < j < |keys| ==> keys[i].keyId != keys[j].keyId
    requires forall i :: 0 <= i < |keys| ==> Distinct(keys[i].connectorIds)
    ensures Distinct(Signed(keys, c))
    ensures forall keyId :: keyId in Signed(keys, c) <==> Grants(keys, keyId, c)
  {
    if keys == [] {
    } else {
      var k := |keys| - 1;
      var before, last := keys[..k], keys[k];
      SignedIsGranted(before, c);
      MentionsOnce(last.connectorIds, c, last.keyId);
      forall keyId ensures Grants(keys, keyId, c) <==> Grants(before, keyId, c) || (keyId == last.keyId && c in last.connectorIds) {
        GrantsGrow(keys, keyId, c);
      }
      assert !Grants(before, last.keyId, c);
    }
  }

  lemma GrantsGrow(keys: seq<ActionKey>, keyId: string, c: string)
    requires keys != []
    ensures var k := |keys| - 1;
            Grants(keys, keyId, c) <==> Grants(keys[..k], keyId, c) || (keyId == keys[k].keyId && c in keys[k].connectorIds)
  {
    var k := |keys| - 1;
    if Grants(keys[..k], keyId, c) {
      var i :| 0 <= i < |keys[..k]| && keys[..k][i].keyId == keyId && c in keys[..k][i].connectorIds;
      assert keys[i].keyId == keyId;
    }
    if Grants(keys, keyId, c) {
      var i :| 0 <= i < |keys| && keys[i].keyId == keyId && c in keys[i].connectorIds;
      assert i < k ==> keys[..k][i] == keys[i];
    }
  }

  lemma ScopeIsExactIff(authorityIds: seq<string>, keys: seq<ActionKey>, c: string)
    requires forall i, j :: 0 <= i < j < |keys| ==> keys[i].keyId != keys[j].keyId
    requires forall i :: 0 <= i < |keys| ==> Distinct(keys[i].connectorIds)
    ensures Signed(keys, c) != [] && authorityIds == SortedStrings(Signed(keys, c)) <==> ExactScope(authorityIds, keys, c)
  {
    var signed := Signed(keys, c);
    var sorted := SortedStrings(signed);
    SignedIsGranted(keys, c);
    DistinctSorted(signed, sorted);
    SameElements(sorted, signed);
    if ExactScope(authorityIds, keys, c) {
      AscendingUnique(authorityIds, sorted);
    }
  }

  /** Readiness is exact: with unique IDs the check succeeds if and only if every signed key is
      configured with its tenant and public key and stays within the selected connectors, every
      selected connector lists exactly the keys signed for it, and the tenant has a budget. */
  lemma ReadyIffExact(config: Config, intent: Intent, keys: seq<ActionKey>)
    requires Unique(config, keys)
    ensures Ready(config, intent, keys) <==> Exact(config, intent, keys)
  {
    forall i | 0 <= i < |keys|
      ensures AuthorityMatches(config, intent, keys[i]) <==>
                Authority(keys[i].keyId, intent.tenant, keys[i].publicKey) in config.authorities
    {
      AuthorityIsConfigured(config, intent, keys[i]);
    }
    forall c | c in intent.connectorIds
      ensures ScopeMatches(config, keys, c) <==>
                exists k :: 0 <= k < |config.connectors| && config.connectors[k].id == c && ExactScope(config.connectors[k].authorityIds, keys, c)
    {
      ScopeIsConfigured(config, keys, c);
    }
    if Ready(config, intent, keys) {
      forall c | c in intent.connectorIds ensures ScopeMatches(config, keys, c) {
        var i :| 0 <= i < |intent.connectorIds| && intent.connectorIds[i] == c;
      }
    }
  }

  lemma AuthorityIsConfigured(config: Config, intent: Intent, key: ActionKey)
    requires forall i, j :: 0 <= i < j < |config.authorities| ==> config.authorities[i].keyId != config.authorities[j].keyId
    ensures AuthorityMatches(config, intent, key) <==>
              Authority(key.keyId, intent.tenant, key.publicKey) in config.authorities
  {
    AuthorityMapFinds(config.authorities, key.keyId);
    var wanted := Authority(key.keyId, intent.tenant, key.publicKey);
    if wanted in config.authorities {
      var i :| 0 <= i < |config.authorities| && config.authorities[i] == wanted;
      assert config.authorities[i].keyId == key.keyId;
    }
  }

  lemma ScopeIsConfigured(config: Config, keys: seq<ActionKey>, c: string)
    requires Unique(config, keys)
    ensures ScopeMatches(config, keys, c) <==>
              exists k :: 0 <= k < |config.connectors| && config.connectors[k].id == c && ExactScope(config.connectors[k].authorityIds, keys, c)
  {
    ConnectorMapFinds(config.connectors, c);
    forall k | 0 <= k < |config.connectors| && config.connectors[k].id == c
      ensures ScopeMatches(config, keys, c) <==> ExactScope(config.connectors[k].authorityIds, keys, c)
    {
      ScopeIsExactIff(config.connectors[k].authorityIds, keys, c);
    }
  }
}
