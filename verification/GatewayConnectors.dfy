/** `stewardctl gateway connector set` (cmd/stewardctl/gateway.go): the table of action
    authorities and the connectors that refer to it, over any sequence of commands.

    Flags arrive parsed.  Reading the configuration, the other connector settings, receipt
    budgets and the receipt identity are one yes-or-no answer, `restAccepted`.
 */
module GatewayConnectors {
  import opened Common
  import opened Ordering

  datatype Authority = Authority(keyId: string, tenant: string, publicKey: string)

  datatype Connector = Connector(id: string, settings: string, authorityIds: seq<string>, epoch: nat, permitSeconds: int)

  datatype Config = Config(connectors: seq<Connector>, authorities: seq<Authority>, permitNode: string)

  /** `-action-authority KEY_ID=FILE`; `key` is None when the file does not hold a public key. */
  datatype KeyFlag = KeyFlag(keyId: string, key: Option<string>)

  datatype TenantFlag = TenantFlag(keyId: string, tenant: string)

  datatype Command = Command(
    id: string, settings: string, clear: bool, protectedPreset: bool,
    keys: seq<KeyFlag>, tenants: seq<TenantFlag>, node: string, maxSeconds: int, epoch: Option<nat>, restAccepted: bool)

  // ---------------------------------------------------------------- specification

  predicate Defined(table: seq<Authority>, keyId: string) {
    exists i :: 0 <= i < |table| && table[i].keyId == keyId
  }

  /** The flag agrees with what the table already says about its key ID. */
  predicate Agrees(table: seq<Authority>, keyId: string, key: string, tenant: Option<string>) {
    forall i :: 0 <= i < |table| && table[i].keyId == keyId ==>
      table[i].publicKey == key && (tenant.Some? ==> table[i].tenant == tenant.value)
  }

  datatype Added = Added(table: seq<Authority>, unused: map<string, string>)

  function TenantOf(tenants: map<string, string>, keyId: string): Option<string> {
    if keyId in tenants then Some(tenants[keyId]) else None
  }

  /** The scopes of `-action-authority-tenant`, each key ID at most once. */
  function Scopes(flags: seq<TenantFlag>, scopes: map<string, string>): Option<map<string, string>>
    decreases |flags|
  {
    if flags == [] then Some(scopes)
    else if flags[0].keyId == "" || flags[0].tenant == "" || flags[0].keyId in scopes then None
    else Scopes(flags[1..], scopes[flags[0].keyId := flags[0].tenant])
  }

  /** Each key flag in turn: a known key ID must agree, a new one needs a tenant. */
  function AddKeys(table: seq<Authority>, scopes: map<string, string>, keys: seq<KeyFlag>): Option<Added>
    decreases |keys|
  {
    if keys == [] then Some(Added(table, scopes))
    else
      var KeyFlag(keyId, key) := keys[0];
      var tenant := TenantOf(scopes, keyId);
      if keyId == "" || key.None? || !Agrees(table, keyId, key.value, tenant) then None
      else if Defined(table, keyId) then AddKeys(table, scopes - {keyId}, keys[1..])
      else if tenant.None? then None
      else AddKeys(table + [Authority(keyId, tenant.value, key.value)], scopes - {keyId}, keys[1..])
  }

  function KeyIds(keys: seq<KeyFlag>): seq<string> {
    seq(|keys|, i requires 0 <= i < |keys| => keys[i].keyId)
  }

  function FindConnector(connectors: seq<Connector>, id: string): Option<Connector> {
    if connectors == [] then None else if connectors[0].id == id then Some(connectors[0]) else FindConnector(connectors[1..], id)
  }

  /** The first connector with this ID is replaced in place; otherwise it is appended. */
  function PutConnector(connectors: seq<Connector>, x: Connector): seq<Connector> {
    if connectors == [] then [x]
    else if connectors[0].id == x.id then [x] + connectors[1..]
    else [connectors[0]] + PutConnector(connectors[1..], x)
  }

  predicate Referenced(connectors: seq<Connector>, keyId: string) {
    exists i :: 0 <= i < |connectors| && keyId in connectors[i].authorityIds
  }

  function Pruned(table: seq<Authority>, connectors: seq<Connector>): seq<Authority> {
    if table == [] then []
    else (if Referenced(connectors, table[0].keyId) then [table[0]] else []) + Pruned(table[1..], connectors)
  }

  /** The authorities the command leaves on the connector, with the table grown for them. */
  function Selected(c: Config, cmd: Command): Option<(seq<Authority>, seq<string>, int)> {
    var existing := FindConnector(c.connectors, cmd.id);
    if cmd.keys != [] then
      if cmd.maxSeconds <= 0 then None
      else
        var scopes := Scopes(cmd.tenants, map[]);
        if scopes.None? then None
        else
          var added := AddKeys(c.authorities, scopes.value, cmd.keys);
          var ids := SortedStrings(KeyIds(cmd.keys));
          if added.None? || added.value.unused != map[] || !Distinct(ids) then None
          else Some((added.value.table, ids, cmd.maxSeconds))
    else if !cmd.clear && existing.Some? then
      Some((c.authorities, existing.value.authorityIds, if cmd.maxSeconds > 0 then cmd.maxSeconds else existing.value.permitSeconds))
    else Some((c.authorities, [], 0))
  }

  /** The permit node the configuration ends with, before pruning. */
  function Node(c: Config, cmd: Command): Option<string> {
    if c.permitNode == "" then (if cmd.node == "" then None else Some(cmd.node))
    else if cmd.node != "" && cmd.node != c.permitNode then None
    else Some(c.permitNode)
  }

  function Epoch(c: Config, cmd: Command): nat {
    var existing := FindConnector(c.connectors, cmd.id);
    var chosen := if cmd.epoch.Some? then cmd.epoch.value else if existing.Some? then existing.value.epoch else 0;
    if chosen == 0 then 1 else chosen
  }

  predicate FlagsConflict(c: Config, cmd: Command) {
    var existing := FindConnector(c.connectors, cmd.id);
    || (cmd.clear && (cmd.keys != [] || cmd.tenants != [] || cmd.node != "" || cmd.maxSeconds != 0 || cmd.epoch.Some?))
    || (cmd.tenants != [] && cmd.keys == [])
    || cmd.epoch == Some(0)
    || (cmd.protectedPreset && cmd.keys == [] && (existing.None? || existing.value.authorityIds == []))
  }

  function Stored(table: seq<Authority>, connectors: seq<Connector>, node: string): Config {
    var kept := Pruned(table, connectors);
    Config(connectors, kept, if kept == [] then "" else node)
  }

  /** The whole command: an error, or the configuration it writes. */
  function Set(c: Config, cmd: Command): Option<Config> {
    if FlagsConflict(c, cmd) then None
    else
      var selected := Selected(c, cmd);
      if selected.None? then None
      else
        var (table, ids, seconds) := selected.value;
        if ids != [] then
          if Node(c, cmd).None? || !cmd.restAccepted then None
          else Some(Stored(table, PutConnector(c.connectors, Connector(cmd.id, cmd.settings, ids, Epoch(c, cmd), seconds)), Node(c, cmd).value))
        else if cmd.node != "" || cmd.maxSeconds != 0 || cmd.epoch.Some? || !cmd.restAccepted then None
        else Some(Stored(table, PutConnector(c.connectors, Connector(cmd.id, cmd.settings, [], 0, seconds)), c.permitNode))
  }

  // ---------------------------------------------------------------- the code

  /** The in-memory configuration that one command works on and then writes back. */
  class GatewayConfig {
    var connectors: seq<Connector>
    var authorities: seq<Authority>
    var permitNode: string

    constructor (c: Config)
      ensures View() == c
    {
      connectors, authorities, permitNode := c.connectors, c.authorities, c.permitNode;
    }

    function View(): Config
      reads this
    {
      Config(connectors, authorities, permitNode)
    }

    /** The loop over `-action-authority-tenant`. */
    method ReadScopes(flags: seq<TenantFlag>) returns (r: Option<map<string, string>>)
      ensures r == Scopes(flags, map[])
    {
      var scopes: map<string, string> := map[];
      for n := 0 to |flags|
        invariant Scopes(flags, map[]) == Scopes(flags[n..], scopes)
      {
        var flag := flags[n];
        assert flags[n..][0] == flag && flags[n..][1..] == flags[n + 1..];
        if flag.keyId == "" || flag.tenant == "" || flag.keyId in scopes {
          return None;
        }
        scopes := scopes[flag.keyId := flag.tenant];
      }
      assert flags[|flags|..] == [];
      return Some(scopes);
    }

    /** The scan of the table for one key ID. */
    method CheckAuthority(keyId: string, key: string, tenant: Option<string>) returns (found: bool, agrees: bool)
      ensures agrees <==> Agrees(authorities, keyId, key, tenant)
      ensures agrees ==> (found <==> Defined(authorities, keyId))
    {
      found, agrees := false, true;
      for i := 0 to |authorities|
        invariant found <==> exists j :: 0 <= j < i && authorities[j].keyId == keyId
        invariant forall j :: 0 <= j < i && authorities[j].keyId == keyId ==>
                    authorities[j].publicKey == key && (tenant.Some? ==> authorities[j].tenant == tenant.value)
      {
        if authorities[i].keyId == keyId {
          found := true;
          if authorities[i].publicKey != key || (tenant.Some? && authorities[i].tenant != tenant.value) {
            return found, false;
          }
        }
      }
    }

    /** The loop over `-action-authority`, which appends to the table as it goes. */
    method AddAuthorities(keys: seq<KeyFlag>, scopes0: map<string, string>) returns (r: Option<seq<string>>)
      modifies this
      ensures connectors == old(connectors) && permitNode == old(permitNode)
      ensures var added := AddKeys(old(authorities), scopes0, keys);
              if added.None? || added.value.unused != map[] || !Distinct(SortedStrings(KeyIds(keys))) then r.None?
              else r == Some(SortedStrings(KeyIds(keys))) && authorities == added.value.table
    {
      var scopes, ids := scopes0, [];
      for n := 0 to |keys|
        invariant connectors == old(connectors) && permitNode == old(permitNode)
        invariant AddKeys(old(authorities), scopes0, keys) == AddKeys(authorities, scopes, keys[n..])
        invariant ids == KeyIds(keys[..n])
      {
        var flag := keys[n];
        assert keys[n..][0] == flag && keys[n..][1..] == keys[n + 1..];
        if flag.keyId == "" || flag.key.None? {
          return None;
        }
        var tenant := TenantOf(scopes, flag.keyId);
        var found, agrees := CheckAuthority(flag.keyId, flag.key.value, tenant);
        if !agrees {
          return None;
        }
        if !found {
          if tenant.None? {
            return None;
          }
          authorities := authorities + [Authority(flag.keyId, tenant.value, flag.key.value)];
        }
        scopes := scopes - {flag.keyId};
        ids := ids + [flag.keyId];
      }
      assert keys[|keys|..] == [] && keys[..|keys|] == keys;
      if scopes != map[] {
        return None;
      }
      ids := SortedStrings(ids);
      var repeated := HasRepeat(ids);
      if repeated {
        return None;
      }
      return Some(ids);
    }

    /** The authorities the connector ends with: those given, or those it already has. */
    method SelectAuthorities(cmd: Command) returns (r: Option<(seq<string>, int)>)
      modifies this
      ensures connectors == old(connectors) && permitNode == old(permitNode)
      ensures r.Some? <==> Selected(old(View()), cmd).Some?
      ensures r.Some? ==> Selected(old(View()), cmd).value == (authorities, r.value.0, r.value.1)
    {
      var existing := FindConnector(connectors, cmd.id);
      if cmd.keys == [] {
        if !cmd.clear && existing.Some? {
          var seconds := existing.value.permitSeconds;
          if cmd.maxSeconds > 0 {
            seconds := cmd.maxSeconds;
          }
          return Some((existing.value.authorityIds, seconds));
        }
        return Some(([], 0));
      }
      if cmd.maxSeconds <= 0 {
        return None;
      }
      var scopes := ReadScopes(cmd.tenants);
      if scopes.None? {
        return None;
      }
      var added := AddAuthorities(cmd.keys, scopes.value);
      if added.None? {
        return None;
      }
      return Some((added.value, cmd.maxSeconds));
    }

    /** The first action-permit connector fixes the node identity; later ones must agree. */
    method SettleNode(node: string) returns (agreed: bool)
      modifies this
      ensures connectors == old(connectors) && authorities == old(authorities)
      ensures agreed <==> (if old(permitNode) == "" then node != "" else node == "" || node == old(permitNode))
      ensures agreed ==> permitNode == if old(permitNode) == "" then node else old(permitNode)
    {
      if permitNode == "" {
        if node == "" {
          return false;
        }
        permitNode := node;
      } else if node != "" && node != permitNode {
        return false;
      }
      return true;
    }

    /** Replaces the first connector with the same ID, or appends. */
    method ReplaceConnector(x: Connector)
      modifies this
      ensures connectors == PutConnector(old(connectors), x)
      ensures authorities == old(authorities) && permitNode == old(permitNode)
    {
      for index := 0 to |connectors|
        invariant connectors == old(connectors) && authorities == old(authorities) && permitNode == old(permitNode)
        invariant PutConnector(connectors, x) == connectors[..index] + PutConnector(connectors[index..], x)
      {
        assert connectors[index..][0] == connectors[index] && connectors[index..][1..] == connectors[index + 1..];
        if connectors[index].id == x.id {
          assert connectors[index := x] == connectors[..index] + ([x] + connectors[index + 1..]);
          connectors := connectors[index := x];
          return;
        }
        assert connectors[..index] + ([connectors[index]] + PutConnector(connectors[index + 1..], x))
            == connectors[..index + 1] + PutConnector(connectors[index + 1..], x);
      }
      assert connectors[|connectors|..] == [] && connectors[..|connectors|] == connectors;
      connectors := connectors + [x];
    }

    /** `pruneActionAuthorities`. */
    method PruneAuthorities()
      modifies this
      ensures View() == Stored(old(authorities), old(connectors), old(permitNode))
    {
      var kept: seq<Authority> := [];
      for i := 0 to |authorities|
        invariant View() == old(View())
        invariant Pruned(authorities, connectors) == kept + Pruned(authorities[i..], connectors)
      {
        assert authorities[i..][0] == authorities[i] && authorities[i..][1..] == authorities[i + 1..];
        if Referenced(connectors, authorities[i].keyId) {
          kept := kept + [authorities[i]];
        }
      }
      assert authorities[|authorities|..] == [];
      authorities := kept;
      if kept == [] {
        permitNode := "";
      }
    }
  }

  /** Puts the connector in, prunes, and writes the file. */
  method WriteConnector(file: GatewayConfig, config: GatewayConfig, x: Connector)
    modifies file, config
    ensures file.View() == Stored(old(config.authorities), PutConnector(old(config.connectors), x), old(config.permitNode))
  {
    config.ReplaceConnector(x);
    config.PruneAuthorities();
    file.connectors, file.authorities, file.permitNode := config.connectors, config.authorities, config.permitNode;
  }

  /** `gateway connector set`: the file is rewritten with the specified configuration, or the
      command fails and nothing is written. */
  method SetConnector(file: GatewayConfig, cmd: Command) returns (ok: bool)
    modifies file
    ensures ok <==> Set(old(file.View()), cmd).Some?
    ensures file.View() == if ok then Set(old(file.View()), cmd).value else old(file.View())
  {
    var config := new GatewayConfig(file.View());
    if cmd.clear && (cmd.keys != [] || cmd.tenants != [] || cmd.node != "" || cmd.maxSeconds != 0 || cmd.epoch.Some?) {
      return false;
    }
    if cmd.tenants != [] && cmd.keys == [] {
      return false;
    }
    if cmd.epoch == Some(0) {
      return false;
    }
    var existing := FindConnector(config.connectors, cmd.id);
    if cmd.protectedPreset && cmd.keys == [] && (existing.None? || existing.value.authorityIds == []) {
      return false;
    }
    var selected := config.SelectAuthorities(cmd);
    if selected.None? {
      return false;
    }
    var (ids, permitSeconds) := selected.value;
    var epoch := if cmd.epoch.Some? then cmd.epoch.value else 0;
    if epoch == 0 && existing.Some? {
      epoch := existing.value.epoch;
    }
    if ids != [] {
      if epoch == 0 {
        epoch := 1;
      }
      var agreed := config.SettleNode(cmd.node);
      if !agreed {
        return false;
      }
    } else if cmd.node != "" || cmd.maxSeconds != 0 || cmd.epoch.Some? {
      return false;
    } else {
      epoch := 0;
    }
    if !cmd.restAccepted {
      return false;
    }
    WriteConnector(file, config, Connector(cmd.id, cmd.settings, ids, epoch, permitSeconds));
    return true;
  }

  /** Neighbours are equal somewhere, which in a sorted list means a repeat. */
  method HasRepeat(ids: seq<string>) returns (repeated: bool)
    requires SortedBy(ids, AtMost)
    ensures repeated <==> !Distinct(ids)
  {
    var index := 1;
    while index < |ids|
      invariant forall i :: 0 < i < index && i < |ids| ==> ids[i - 1] != ids[i]
    {
      if ids[index - 1] == ids[index] {
        return true;
      }
      index := index + 1;
    }
    forall i, j | 0 <= i < j < |ids| ensures ids[i] != ids[j] {
      LessTrichotomy(ids[i], ids[i + 1]);
      assert AtMost(ids[i], ids[i + 1]);
      if j > i + 1 {
        LessTransitive(ids[i], ids[i + 1], ids[j]);
        LessTrichotomy(ids[i], ids[j]);
      }
    }
    return false;
  }

  // ---------------------------------------------------------------- the invariant

  predicate UniqueConnectors(connectors: seq<Connector>) {
    forall i, j :: 0 <= i < j < |connectors| ==> connectors[i].id != connectors[j].id
  }

  predicate UniqueKeys(table: seq<Authority>) {
    forall i, j :: 0 <= i < j < |table| ==> table[i].keyId != table[j].keyId
  }

  /** Credential epoch and permit lifetime are set exactly when the connector has authorities. */
  predicate ConnectorOk(x: Connector) {
    && StrictlyAscending(x.authorityIds) && (x.epoch > 0 <==> x.authorityIds != [])
    && (if x.authorityIds == [] then x.permitSeconds == 0 else x.permitSeconds > 0)
  }

  /** Every authority a connector names is defined, exactly once. */
  predicate AllDefined(connectors: seq<Connector>, table: seq<Authority>) {
    forall i, k :: 0 <= i < |connectors| && k in connectors[i].authorityIds ==> Defined(table, k)
  }

  predicate AllReferenced(connectors: seq<Connector>, table: seq<Authority>) {
    forall j :: 0 <= j < |table| ==> Referenced(connectors, table[j].keyId)
  }

  predicate ConfigInv(c: Config) {
    && UniqueConnectors(c.connectors) && UniqueKeys(c.authorities)
    && (forall i :: 0 <= i < |c.connectors| ==> ConnectorOk(c.connectors[i]))
    && AllDefined(c.connectors, c.authorities) && AllReferenced(c.connectors, c.authorities)
    && (c.permitNode == "" <==> c.authorities == [])
  }

  lemma {:induction false} FindConnectorFinds(connectors: seq<Connector>, id: string)
    ensures var f := FindConnector(connectors, id); f.Some? ==> f.value in connectors && f.value.id == id
    ensures FindConnector(connectors, id).None? ==> forall i :: 0 <= i < |connectors| ==> connectors[i].id != id
  {
    if connectors == [] {
    } else {
      FindConnectorFinds(connectors[1..], id);
    }
  }

  /** The update replaces the first connector of that ID, or appends. */
  lemma {:induction false} PutConnectorAt(connectors: seq<Connector>, x: Connector) returns (k: nat)
    ensures k <= |connectors| && (forall i :: 0 <= i < k ==> connectors[i].id != x.id)
    ensures k < |connectors| ==> connectors[k].id == x.id
    ensures PutConnector(connectors, x) == if k < |connectors| then connectors[k := x] else connectors + [x]
  {
    if connectors == [] || connectors[0].id == x.id {
      k := 0;
    } else {
      var rest := PutConnectorAt(connectors[1..], x);
      k := rest + 1;
      assert [connectors[0]] + connectors[1..] == connectors;
    }
  }

  /** After the update: the new connector is there, and everything else was there before. */
  lemma PutConnectorMembers(connectors: seq<Connector>, x: Connector)
    requires UniqueConnectors(connectors)
    ensures var r := PutConnector(connectors, x);
            && UniqueConnectors(r) && x in r
            && (forall i :: 0 <= i < |r| ==> r[i] == x || (r[i] in connectors && r[i].id != x.id))
            && (forall i :: 0 <= i < |connectors| && connectors[i].id != x.id ==> connectors[i] in r)
  {
    var k := PutConnectorAt(connectors, x);
    var r := PutConnector(connectors, x);
    assert r[k] == x;
    forall i | 0 <= i < |connectors| && connectors[i].id != x.id ensures connectors[i] in r {
      assert r[i] == connectors[i];
    }
  }

  /** Adding keys only appends, keeps key IDs unique, and leaves every named key defined. */
  lemma {:induction false} AddKeysGrows(table: seq<Authority>, scopes: map<string, string>, keys: seq<KeyFlag>)
    requires UniqueKeys(table) && AddKeys(table, scopes, keys).Some?
    ensures var r := AddKeys(table, scopes, keys).value.table;
            table <= r && UniqueKeys(r) && forall i :: 0 <= i < |keys| ==> Defined(r, keys[i].keyId)
    decreases |keys|
  {
    if keys == [] {
    } else {
      var keyId := keys[0].keyId;
      var table' := if Defined(table, keyId) then table else table + [Authority(keyId, scopes[keyId], keys[0].key.value)];
      assert Defined(table', keyId) by {
        if !Defined(table, keyId) { assert table'[|table|].keyId == keyId; }
      }
      AddKeysGrows(table', scopes - {keyId}, keys[1..]);
      var r := AddKeys(table, scopes, keys).value.table;
      DefinedGrows(table', r, keyId);
      forall i | 0 <= i < |keys| ensures Defined(r, keys[i].keyId) {
        if i > 0 { assert keys[1..][i - 1] == keys[i]; }
      }
    }
  }

  lemma DefinedGrows(a: seq<Authority>, b: seq<Authority>, keyId: string)
    requires a <= b && Defined(a, keyId)
    ensures Defined(b, keyId)
  {
    var i :| 0 <= i < |a| && a[i].keyId == keyId;
    assert b[i].keyId == keyId;
  }

  /** Pruning keeps exactly the referenced entries, in order. */
  lemma {:induction false} PrunedKeeps(table: seq<Authority>, connectors: seq<Connector>)
    ensures var r := Pruned(table, connectors);
            && (forall a :: a in r <==> a in table && Referenced(connectors, a.keyId))
            && (UniqueKeys(table) ==> UniqueKeys(r))
  {
    if table == [] {
    } else {
      PrunedKeeps(table[1..], connectors);
      var rest := Pruned(table[1..], connectors);
      var r := Pruned(table, connectors);
      assert table == [table[0]] + table[1..];
      if UniqueKeys(table) {
        forall j | 0 <= j < |rest| ensures rest[j].keyId != table[0].keyId { assert rest[j] in table[1..]; }
      }
    }
  }

  lemma StoredInv(table: seq<Authority>, connectors: seq<Connector>, node: string)
    requires UniqueConnectors(connectors) && UniqueKeys(table) && AllDefined(connectors, table)
    requires forall i :: 0 <= i < |connectors| ==> ConnectorOk(connectors[i])
    requires node != "" || forall i :: 0 <= i < |connectors| ==> connectors[i].authorityIds == []
    ensures ConfigInv(Stored(table, connectors, node))
  {
    PrunedKeeps(table, connectors);
    var kept := Pruned(table, connectors);
    forall i, k | 0 <= i < |connectors| && k in connectors[i].authorityIds ensures Defined(kept, k) {
      assert Defined(table, k);
      var j :| 0 <= j < |table| && table[j].keyId == k;
      assert Referenced(connectors, k) && table[j] in kept;
      var n :| 0 <= n < |kept| && kept[n] == table[j];
    }
    if kept != [] {
      assert kept[0] in kept;
      var i :| 0 <= i < |connectors| && kept[0].keyId in connectors[i].authorityIds;
    }
  }

  /** The authorities a command selects are defined in the grown table, sorted and distinct. */
  lemma SelectedOk(c: Config, cmd: Command)
    requires ConfigInv(c) && Selected(c, cmd).Some?
    ensures var (table, ids, seconds) := Selected(c, cmd).value;
            && c.authorities <= table && UniqueKeys(table) && StrictlyAscending(ids)
            && (forall k :: k in ids ==> Defined(table, k))
            && (ids != [] ==> seconds > 0) && (ids == [] && cmd.maxSeconds == 0 ==> seconds == 0)
  {
    FindConnectorFinds(c.connectors, cmd.id);
    var existing := FindConnector(c.connectors, cmd.id);
    if existing.Some? {
      var i :| 0 <= i < |c.connectors| && c.connectors[i] == existing.value;
      assert ConnectorOk(c.connectors[i]);
    }
    if cmd.keys != [] {
      var scopes := Scopes(cmd.tenants, map[]).value;
      AddKeysGrows(c.authorities, scopes, cmd.keys);
      var ids := SortedStrings(KeyIds(cmd.keys));
      SameElements(ids, KeyIds(cmd.keys));
      forall k | k in ids ensures Defined(AddKeys(c.authorities, scopes, cmd.keys).value.table, k) {
        assert k in KeyIds(cmd.keys);
      }
      forall i, j | 0 <= i < j < |ids| ensures Less(ids[i], ids[j]) {
        LessTrichotomy(ids[i], ids[j]);
      }
    }
  }

  lemma NoNodeNoAuthorities(c: Config)
    requires ConfigInv(c) && c.permitNode == ""
    ensures forall x :: x in c.connectors ==> x.authorityIds == []
  {
    forall i | 0 <= i < |c.connectors| ensures c.connectors[i].authorityIds == [] {
      var ids := c.connectors[i].authorityIds;
      assert ids != [] ==> ids[0] in ids && Defined(c.authorities, ids[0]);
    }
  }

  /** One command keeps the authority table and the connectors consistent. */
  lemma SetKeepsInv(c: Config, cmd: Command)
    requires ConfigInv(c) && Set(c, cmd).Some?
    ensures ConfigInv(Set(c, cmd).value)
  {
    SelectedOk(c, cmd);
    var (table, ids, seconds) := Selected(c, cmd).value;
    var x := Connector(cmd.id, cmd.settings, ids, if ids != [] then Epoch(c, cmd) else 0, seconds);
    var connectors := PutConnector(c.connectors, x);
    PutConnectorMembers(c.connectors, x);
    forall i, k | 0 <= i < |connectors| && k in connectors[i].authorityIds ensures Defined(table, k) {
      if connectors[i] != x {
        var j :| 0 <= j < |c.connectors| && c.connectors[j] == connectors[i];
        DefinedGrows(c.authorities, table, k);
      }
    }
    var node := if ids != [] then Node(c, cmd).value else c.permitNode;
    if node == "" {
      NoNodeNoAuthorities(c);
    }
    StoredInv(table, connectors, node);
  }

  // ---------------------------------------------------------------- sequences of commands

  /** A failed command leaves the file as it was. */
  function AfterCommand(c: Config, cmd: Command): Config {
    if Set(c, cmd).Some? then Set(c, cmd).value else c
  }

  function AfterCommands(c: Config, cmds: seq<Command>): Config
    decreases |cmds|
  {
    if cmds == [] then c else AfterCommands(AfterCommand(c, cmds[0]), cmds[1..])
  }

  /** Over any sequence of `set` commands: each authority a connector names is defined exactly
      once, each defined one is named, epochs are positive exactly where there are authorities,
      and the permit node is set exactly when there is an authority. */
  lemma {:induction false} CommandsKeepInv(c: Config, cmds: seq<Command>)
    requires ConfigInv(c)
    ensures ConfigInv(AfterCommands(c, cmds))
    decreases |cmds|
  {
    if cmds == [] {
    } else {
      if Set(c, cmds[0]).Some? { SetKeepsInv(c, cmds[0]); }
      CommandsKeepInv(AfterCommand(c, cmds[0]), cmds[1..]);
    }
  }

  predicate DefinedThroughout(c: Config, cmds: seq<Command>, keyId: string)
    decreases |cmds|
  {
    Defined(c.authorities, keyId) && (cmds != [] ==> DefinedThroughout(AfterCommand(c, cmds[0]), cmds[1..], keyId))
  }

  lemma SetKeepsAuthority(c: Config, cmd: Command, a: Authority)
    requires ConfigInv(c) && a in c.authorities && Defined(AfterCommand(c, cmd).authorities, a.keyId)
    ensures a in AfterCommand(c, cmd).authorities
  {
    if Set(c, cmd).Some? {
      SelectedOk(c, cmd);
      var (table, ids, seconds) := Selected(c, cmd).value;
      var c' := Set(c, cmd).value;
      PrunedKeeps(table, c'.connectors);
      var j :| 0 <= j < |c'.authorities| && c'.authorities[j].keyId == a.keyId;
      assert c'.authorities[j] in table && a in table;
      assert c'.authorities[j] in c'.authorities;
    }
  }

  /** While a key ID stays defined, no sequence of commands changes its key or its tenant. */
  lemma {:induction false} AuthorityIsNeverRebound(c: Config, cmds: seq<Command>, a: Authority)
    requires ConfigInv(c) && a in c.authorities && DefinedThroughout(c, cmds, a.keyId)
    ensures a in AfterCommands(c, cmds).authorities
    ensures forall b :: b in AfterCommands(c, cmds).authorities && b.keyId == a.keyId ==> b == a
    decreases |cmds|
  {
    if cmds == [] {
    } else {
      SetKeepsAuthority(c, cmds[0], a);
      if Set(c, cmds[0]).Some? { SetKeepsInv(c, cmds[0]); }
      AuthorityIsNeverRebound(AfterCommand(c, cmds[0]), cmds[1..], a);
    }
  }
}
