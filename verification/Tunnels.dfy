/** Tunnels: which plugin each serves, whose account it connects with, and what it may reach. */
module Tunnels {
  import opened Wrappers
  import opened Text
  import opened Sorting
  import opened Lists
  import opened Levels
  import opened Grants
  import opened Authorization

  // ---- Keys and accounts --------------------------------------------------

  /** The setting keys tunnels are kept under. */
  datatype Key =
    | TunnelPlugin(id: string)      // tunnel.<id>.plugin
    | TunnelAccount(id: string)     // tunnel.<id>.account
    | PluginTunnel(plugin: string)  // tunnel.plugin.<plugin>.tunnel_id, the old layout
    | PluginAccount(plugin: string) // tunnel.plugin.<plugin>.account, the old layout
    | AggregateId                   // tunnel.tunnel_id, the old layout
    | AggregateAccount              // tunnel.account, the old layout
    | OtherKey(name: string)

  type Store = map<Key, string>

  function Str(s: Store, k: Key, fallback: string): string {
    if k in s then s[k] else fallback
  }

  /** The plugin value of a tunnel serving everything its account may reach. */
  const EVERYTHING: string := "*"

  datatype Account = Account(
    id: string, name: string, apiKey: string, principal: string, roleId: string,
    permissions: Permissions, grants: seq<Grant>, enabled: bool)

  /** An account with no grants reaches everything; anything else reaches what it says. */
  function AsPrincipal(a: Account): Principal {
    Principal(a.principal, a.roleId, a.id, a.permissions,
              if a.grants == [] then [Grant(WILDCARD, WriteLevel)] else a.grants, false)
  }

  function Find(accounts: seq<Account>, id: string): (r: Option<Account>)
    ensures r.Some? ==> r.value in accounts && r.value.id == id
    ensures r.None? ==> forall a | a in accounts :: a.id != id
  {
    if accounts == [] then None
    else if accounts[0].id == id then Some(accounts[0])
    else Find(accounts[1..], id)
  }

  /** The account an assignment resolves to; none named means the only one there is. */
  function AccountFor(accounts: seq<Account>, id: string): (r: Option<Account>)
    ensures r.Some? ==> r.value in accounts
  {
    if Trim(id) == "" then
      if |accounts| == 1 then Some(accounts[0]) else None
    else Find(accounts, Trim(id))
  }

  predicate DistinctIds(accounts: seq<Account>) {
    forall i, j | 0 <= i < j < |accounts| :: accounts[i].id != accounts[j].id
  }

  lemma FindOnly(accounts: seq<Account>, a: Account)
    requires DistinctIds(accounts) && a in accounts
    ensures Find(accounts, a.id) == Some(a)
  {
    var b := Find(accounts, a.id).value;
    var i :| 0 <= i < |accounts| && accounts[i] == a;
    var j :| 0 <= j < |accounts| && accounts[j] == b;
  }

  /** An assignment resolves to the account it names, or to the only one when it names none. */
  lemma AccountForExactly(accounts: seq<Account>, id: string, a: Account)
    requires DistinctIds(accounts)
    ensures AccountFor(accounts, id) == Some(a)
            <==> if Trim(id) == "" then accounts == [a] else a in accounts && a.id == Trim(id)
  {
    if a in accounts { FindOnly(accounts, a); }
  }

  // ---- Assignments --------------------------------------------------------

  datatype Assignment = Assignment(id: string, plugin: string, account: string)

  /** Ids the tunnel keys are read under. */
  predicate Readable(id: string) {
    id != "" && '.' !in id
  }

  function AssignmentOf(s: Store, id: string): Assignment {
    Assignment(id, Str(s, TunnelPlugin(id), ""), Str(s, TunnelAccount(id), ""))
  }

  ghost function AssignedIds(s: Store): set<string> {
    set k | k in s && k.TunnelPlugin? && Readable(k.id) :: k.id
  }

  function IdKey(id: string): string {
    id
  }

  function AssignmentKey(at: Assignment): string {
    at.id
  }

  /** Every assigned id, in order. */
  ghost function Ids(s: Store): (ids: seq<string>)
    ensures Sorted(IdKey, ids) && Elements(ids) == AssignedIds(s)
  {
    Listed(IdKey, AssignedIds(s))
  }

  ghost function Assignments(s: Store): (ats: seq<Assignment>)
    ensures |ats| == |Ids(s)| && forall i | 0 <= i < |ats| :: ats[i] == AssignmentOf(s, Ids(s)[i])
  {
    seq(|Ids(s)|, i requires 0 <= i < |Ids(s)| => AssignmentOf(s, Ids(s)[i]))
  }

  lemma AssignmentsHold(s: Store, at: Assignment)
    ensures at in Assignments(s) <==> at.id in AssignedIds(s) && at == AssignmentOf(s, at.id)
    ensures Sorted(AssignmentKey, Assignments(s))
  {
    if at.id in AssignedIds(s) && at == AssignmentOf(s, at.id) {
      assert at.id in Elements(Ids(s));
      var i :| 0 <= i < |Ids(s)| && Ids(s)[i] == at.id;
      assert Assignments(s)[i] == at;
    }
    if at in Assignments(s) {
      var i :| 0 <= i < |Ids(s)| && Assignments(s)[i] == at;
      assert Ids(s)[i] in Elements(Ids(s));
    }
    forall i, j | 0 <= i < j < |Ids(s)|
      ensures Less(AssignmentKey(Assignments(s)[i]), AssignmentKey(Assignments(s)[j]))
    {
      assert Less(IdKey(Ids(s)[i]), IdKey(Ids(s)[j]));
    }
  }

  /** The assignments, key by key: an id without a dot, its plugin, and its account if there is one. */
  lemma AssignedExactly(s: Store, at: Assignment)
    ensures at in Assignments(s)
            <==> && at.id != "" && (forall i | 0 <= i < |at.id| :: at.id[i] != '.')
                 && TunnelPlugin(at.id) in s && at.plugin == s[TunnelPlugin(at.id)]
                 && at.account == (if TunnelAccount(at.id) in s then s[TunnelAccount(at.id)] else "")
  {
    AssignmentsHold(s, at);
    if TunnelPlugin(at.id) in s && Readable(at.id) { assert TunnelPlugin(at.id).id in AssignedIds(s); }
  }

  /** Reads every assignment from the store, whatever order its keys come in. */
  method AssignedTunnels(s: Store) returns (out: seq<Assignment>)
    ensures out == Assignments(s)
  {
    var found: seq<Assignment> := [];
    var keys := s.Keys;
    while keys != {}
      invariant keys <= s.Keys
      invariant forall at :: at in found <==>
        TunnelPlugin(at.id) in s.Keys - keys && Readable(at.id) && at == AssignmentOf(s, at.id)
      invariant forall i, j | 0 <= i < j < |found| :: found[i].id != found[j].id
      decreases keys
    {
      var key :| key in keys;
      keys := keys - {key};
      if key.TunnelPlugin? && Readable(key.id) {
        forall i | 0 <= i < |found| ensures found[i].id != key.id { assert found[i] in found; }
        found := found + [AssignmentOf(s, key.id)];
      }
    }
    out := SortByKey(AssignmentKey, found);
    forall at ensures at in found <==> at in Assignments(s) {
      AssignmentsHold(s, at);
      if TunnelPlugin(at.id) in s && Readable(at.id) { assert TunnelPlugin(at.id).id in AssignedIds(s); }
    }
    assert Elements(out) == Elements(Assignments(s));
    AssignmentsHold(s, Assignment("", "", ""));
    SortedUnique(AssignmentKey, out, Assignments(s));
  }

  /** The ids of every assignment, in order. */
  method AssignedTunnelIds(s: Store) returns (ids: seq<string>)
    ensures ids == Ids(s)
    ensures forall id | id in ids :: TunnelPlugin(id) in s
  {
    var ats := AssignedTunnels(s);
    ids := [];
    for i := 0 to |ats|
      invariant ids == Ids(s)[..i]
    {
      ids := ids + [ats[i].id];
    }
    forall id | id in ids ensures TunnelPlugin(id) in s { assert id in Elements(Ids(s)); }
  }

  /** Which plugin each tunnel is pointed at; everything is spelled "". */
  ghost function Reported(s: Store): map<string, string> {
    map id | id in AssignedIds(s) && AssignmentOf(s, id).plugin != "" ::
      Spelled(AssignmentOf(s, id).plugin)
  }

  function Spelled(plugin: string): string {
    if plugin == EVERYTHING then "" else plugin
  }

  /** The report, key by key: every assigned tunnel with a plugin, and "" for everything. */
  lemma ReportedExactly(s: Store, id: string, plugin: string)
    ensures id in Reported(s) && Reported(s)[id] == plugin
            <==> && id != "" && (forall i | 0 <= i < |id| :: id[i] != '.')
                 && TunnelPlugin(id) in s && s[TunnelPlugin(id)] != ""
                 && plugin == (if s[TunnelPlugin(id)] == "*" then "" else s[TunnelPlugin(id)])
  {
    if TunnelPlugin(id) in s && Readable(id) { assert TunnelPlugin(id).id in AssignedIds(s); }
  }

  /** The report over a list of assignments. */
  function Report(ats: seq<Assignment>): map<string, string> {
    if ats == [] then map[] else
      var at, before := ats[|ats| - 1], Report(ats[..|ats| - 1]);
      if at.plugin == "" then before else before[at.id := Spelled(at.plugin)]
  }

  lemma {:induction false} ReportHolds(s: Store, ids: seq<string>, ats: seq<Assignment>)
    requires |ats| == |ids| && forall i | 0 <= i < |ids| :: ats[i] == AssignmentOf(s, ids[i])
    ensures Report(ats) == map id | id in ids && AssignmentOf(s, id).plugin != "" :: Spelled(AssignmentOf(s, id).plugin)
  {
    if ids == [] {
    } else {
      var n := |ids| - 1;
      ReportHolds(s, ids[..n], ats[..n]);
      assert forall id :: id in ids <==> id in ids[..n] || id == ids[n];
    }
  }

  method ReportEach(ats: seq<Assignment>) returns (out: map<string, string>)
    ensures out == Report(ats)
  {
    out := map[];
    for i := 0 to |ats|
      invariant out == Report(ats[..i])
    {
      assert ats[..i + 1][..i] == ats[..i];
      var at := ats[i];
      if at.plugin == "" {
      } else if at.plugin == EVERYTHING {
        out := out[at.id := ""];
      } else {
        out := out[at.id := at.plugin];
      }
    }
    assert ats[..|ats|] == ats;
  }

  method TunnelAssignments(s: Store) returns (out: map<string, string>)
    ensures out == Reported(s)
  {
    var ats := AssignedTunnels(s);
    out := ReportEach(ats);
    ReportIsReported(s);
  }

  lemma ReportIsReported(s: Store)
    ensures Report(Assignments(s)) == Reported(s)
  {
    ReportHolds(s, Ids(s), Assignments(s));
    assert forall id :: id in Ids(s) <==> id in Elements(Ids(s));
  }

  // ---- Configurations -----------------------------------------------------

  /** What every tunnel shares, the accounts, and the plugins that are serving. */
  datatype Host = Host(base: Base, accounts: seq<Account>, mounted: seq<string>)

  datatype Base = Base(enabled: bool, controlPlane: string, diagnostics: string, debug: bool)

  datatype Config = Config(
    base: Base, tunnelId: string, plugin: string,
    accountId: string, accountName: string, apiKey: string, principal: Principal)

  /** Attaches an account to a tunnel, narrowed to `plugin` unless that is empty. */
  function BindAccount(h: Host, accountId: string, plugin: string): (r: Option<Config>)
    ensures r.Some? ==> r.value.plugin == "" && r.value.tunnelId == "" && r.value.base == h.base
  {
    match AccountFor(h.accounts, accountId)
    case None => None
    case Some(acct) =>
      if !acct.enabled then None else
      var p := AsPrincipal(acct);
      if plugin == "" then Some(Config(h.base, "", "", acct.id, acct.name, acct.apiKey, p))
      else if !MayUse(Some(p), plugin, ReadLevel) then None
      else Some(Config(h.base, "", "", acct.id, acct.name, acct.apiKey,
                       p.(grants := [Grant(plugin, LevelFor(p.grants, plugin))])))
  }

  /** The configuration an assignment leads to, if it should run at all. */
  function ConfigFor(h: Host, at: Assignment): (r: Option<Config>)
    ensures r.Some? ==> r.value.tunnelId == at.id
  {
    if at.plugin == "" then None
    else if at.plugin == EVERYTHING then
      match BindAccount(h, at.account, "")
      case None => None
      case Some(c) => Some(c.(tunnelId := at.id))
    else if at.plugin !in h.mounted then None
    else
      match BindAccount(h, at.account, at.plugin)
      case None => None
      case Some(c) => Some(c.(plugin := at.plugin, tunnelId := at.id, base := c.base.(diagnostics := "")))
  }

  /** `ConfigFor` as a value, one host at a time. */
  function Resolver(h: Host): Assignment -> Option<Config> {
    at => ConfigFor(h, at)
  }

  function ConfigKey(c: Config): string {
    c.tunnelId
  }

  ghost function Configs(h: Host, s: Store): seq<Config> {
    FilterMap(Resolver(h), Assignments(s))
  }

  /** Resolves every tunnel to run. A tunnel id is never configured twice. */
  method TunnelConfigs(h: Host, s: Store) returns (out: seq<Config>)
    ensures out == Configs(h, s)
  {
    var ats := AssignedTunnels(s);
    AssignmentsHold(s, Assignment("", "", ""));
    SortedDistinct(AssignmentKey, ats);
    out := [];
    var seen: set<string> := {};
    for i := 0 to |ats|
      invariant out == FilterMap(Resolver(h), ats[..i])
      invariant forall j | i <= j < |ats| :: AssignmentKey(ats[j]) !in seen
    {
      var at := ats[i];
      FilterMapNext(Resolver(h), ats, i);
      if at.plugin == "" { continue; }
      if at.plugin == EVERYTHING {
        if at.id in seen { continue; }
        var cfg := BindAccount(h, at.account, "");
        if cfg.Some? {
          seen := seen + {at.id};
          out := out + [cfg.value.(tunnelId := at.id)];
        }
        continue;
      }
      if at.plugin !in h.mounted { continue; }
      if at.id in seen { continue; }
      var scoped := BindAccount(h, at.account, at.plugin);
      if scoped.None? { continue; }
      seen := seen + {at.id};
      out := out + [scoped.value.(plugin := at.plugin, tunnelId := at.id,
                                  base := scoped.value.base.(diagnostics := ""))];
    }
    assert ats[..|ats|] == ats;
  }

  // ---- What a configuration may be ----------------------------------------

  /** The configuration of one tunnel, read from the store. */
  function ConfigAt(h: Host, s: Store, id: string): Option<Config> {
    ConfigFor(h, AssignmentOf(s, id))
  }

  lemma ConfigsHold(h: Host, s: Store, c: Config)
    ensures c in Configs(h, s) <==> c.tunnelId in AssignedIds(s) && ConfigAt(h, s, c.tunnelId) == Some(c)
  {
    FilterMapHolds(Resolver(h), Assignments(s), c);
    if at :| at in Assignments(s) && Resolver(h)(at) == Some(c) {
      AssignmentsHold(s, at);
    }
    if c.tunnelId in AssignedIds(s) && ConfigAt(h, s, c.tunnelId) == Some(c) {
      AssignmentsHold(s, AssignmentOf(s, c.tunnelId));
      assert Resolver(h)(AssignmentOf(s, c.tunnelId)) == Some(c);
    }
  }

  /** Tunnel ids strictly ascend, so none runs twice. */
  lemma ConfigIdsAscend(h: Host, s: Store)
    ensures Sorted(ConfigKey, Configs(h, s))
  {
    AssignmentsHold(s, Assignment("", "", ""));
    FilterMapSorted(Resolver(h), Assignments(s), AssignmentKey, ConfigKey);
  }

  /**
   Every configuration serves the plugin its tunnel is reported to serve, uses an
   account that exists and is switched on, connects with that account's name and key as
   that account's principal, and reaches nothing the account does not. One for a single
   plugin, which is mounted, reaches that plugin at exactly the levels the account held,
   and nothing else; one for everything reaches what the account does.
   */
  lemma ConfigOnlyNarrows(h: Host, s: Store, c: Config)
    requires c in Configs(h, s)
    ensures c.tunnelId in Reported(s) && Reported(s)[c.tunnelId] == c.plugin
    ensures exists a | a in h.accounts :: Connects(h, c, a) && Narrows(h, c, a)
  {
    ConfigsHold(h, s, c);
    var at := AssignmentOf(s, c.tunnelId);
    var a := AccountFor(h.accounts, at.account).value;
    ConfigNarrows(h, at, c, a);
  }

  /** Everything but its reach that a configuration has of its account and of the host. */
  predicate Connects(h: Host, c: Config, a: Account) {
    && a.enabled && c.accountId == a.id && c.accountName == a.name && c.apiKey == a.apiKey
    && c.principal.id == a.principal && c.principal.roleId == a.roleId && c.principal.tokenId == a.id
    && c.principal.permissions == a.permissions && !c.principal.pending
    && c.base == if c.plugin == "" then h.base else h.base.(diagnostics := "")
  }

  /** An account with no grants reaches every plugin; any other, what its grants reach. */
  predicate AccountReaches(a: Account, plugin: string, level: Level) {
    if a.grants == [] then plugin !in {"", "*"} && WriteLevel.Includes(level) else Reaches(a.grants, plugin, level)
  }

  /** A configuration reaches what its account does, of its one plugin or of all. */
  ghost predicate Narrows(h: Host, c: Config, a: Account) {
    && (c.plugin != "" ==> c.plugin in h.mounted)
    && (c.plugin == "" ==> c.principal.grants == if a.grants == [] then [Grant("*", WriteLevel)] else a.grants)
    && forall plugin, level ::
         Reaches(c.principal.grants, plugin, level)
         <==> (c.plugin == "" || plugin == c.plugin) && AccountReaches(a, plugin, level)
  }

  /** What the principal of an account reaches. */
  lemma PrincipalReaches(a: Account, plugin: string, level: Level)
    ensures Reaches(AsPrincipal(a).grants, plugin, level) <==> AccountReaches(a, plugin, level)
  {
    GrantReaches(Grant(WILDCARD, WriteLevel), plugin, level);
  }

  /** The same of one assignment and the account it resolves to. */
  lemma ConfigNarrows(h: Host, at: Assignment, c: Config, a: Account)
    requires ConfigFor(h, at) == Some(c) && AccountFor(h.accounts, at.account) == Some(a)
    ensures at.plugin != "" && c.plugin == Spelled(at.plugin) && Connects(h, c, a) && Narrows(h, c, a)
  {
    forall plugin, level
      ensures Reaches(c.principal.grants, plugin, level)
              <==> (c.plugin == "" || plugin == c.plugin) && AccountReaches(a, plugin, level)
    {
      PrincipalReaches(a, plugin, level);
      if at.plugin != EVERYTHING { NarrowedReach(AsPrincipal(a).grants, c.plugin, plugin, level); }
    }
  }

  /** A configuration depends on the accounts only through the one that is resolved. */
  lemma ConfigByAccount(h: Host, at: Assignment, h': Host, at': Assignment)
    requires h'.base == h.base && h'.mounted == h.mounted && at'.id == at.id && at'.plugin == at.plugin
    ensures AccountFor(h.accounts, at.account) == AccountFor(h'.accounts, at'.account) ==>
              ConfigFor(h, at) == ConfigFor(h', at')
    ensures AccountFor(h.accounts, at.account) == None ==> ConfigFor(h, at) == None
  {
    BindByAccount(h, at.account, h', at'.account, if at.plugin == EVERYTHING then "" else at.plugin);
  }

  lemma BindByAccount(h: Host, account: string, h': Host, account': string, plugin: string)
    requires h'.base == h.base
    ensures AccountFor(h.accounts, account) == AccountFor(h'.accounts, account') ==>
              BindAccount(h, account, plugin) == BindAccount(h', account', plugin)
    ensures AccountFor(h.accounts, account) == None ==> BindAccount(h, account, plugin) == None
  {
  }

  /** An account that is switched on and may serve what the tunnel is pointed at. */
  predicate Serves(h: Host, at: Assignment, acct: Account) {
    && acct.enabled && at.plugin != ""
    && (at.plugin == EVERYTHING || (at.plugin in h.mounted && AccountReaches(acct, at.plugin, ReadLevel)))
  }

  /** A tunnel runs exactly when its assignment resolves to an account that serves it. */
  lemma RunsExactly(h: Host, at: Assignment)
    ensures ConfigFor(h, at).Some?
            <==> AccountFor(h.accounts, at.account).Some?
                 && Serves(h, at, AccountFor(h.accounts, at.account).value)
    ensures ConfigFor(h, at).Some? ==>
              ConfigFor(h, at).value.accountId == AccountFor(h.accounts, at.account).value.id
  {
    if AccountFor(h.accounts, at.account).Some? {
      PrincipalReaches(AccountFor(h.accounts, at.account).value, at.plugin, ReadLevel);
    }
  }

  // ---- When two hosts run the same tunnels --------------------------------

  /** Two hosts run the same tunnels exactly when each assigned tunnel resolves alike. */
  lemma ConfigsAgreeExactly(h: Host, s: Store, h': Host, s': Store)
    requires AssignedIds(s) == AssignedIds(s')
    ensures Configs(h, s) == Configs(h', s')
            <==> forall id | id in AssignedIds(s) :: ConfigAt(h, s, id) == ConfigAt(h', s', id)
  {
    SortedUnique(IdKey, Ids(s), Ids(s'));
    if forall id | id in AssignedIds(s) :: ConfigAt(h, s, id) == ConfigAt(h', s', id) {
      forall i | 0 <= i < |Ids(s)|
        ensures Resolver(h)(Assignments(s)[i]) == Resolver(h')(Assignments(s')[i])
      {
        assert Ids(s)[i] in Elements(Ids(s));
        assert ConfigAt(h, s, Ids(s)[i]) == ConfigAt(h', s', Ids(s)[i]);
      }
      FilterMapAgrees(Resolver(h), Assignments(s), Resolver(h'), Assignments(s'));
    }
    if Configs(h, s) == Configs(h', s') {
      forall id | id in AssignedIds(s) ensures ConfigAt(h, s, id) == ConfigAt(h', s', id) {
        if ConfigAt(h, s, id).Some? {
          ConfigsHold(h, s, ConfigAt(h, s, id).value);
          ConfigsHold(h', s', ConfigAt(h, s, id).value);
        }
        if ConfigAt(h', s', id).Some? {
          ConfigsHold(h, s, ConfigAt(h', s', id).value);
          ConfigsHold(h', s', ConfigAt(h', s', id).value);
        }
      }
    }
  }

  // ---- The diagnostics port -----------------------------------------------

  /** At most one of the tunnels that run holds a diagnostics address. */
  ghost predicate OneBinds(h: Host, s: Store) {
    forall c, d | c in Configs(h, s) && d in Configs(h, s) && c.base.diagnostics != "" && d.base.diagnostics != "" ::
      c == d
  }

  /** A tunnel serving everything that resolves to an account it may use. */
  ghost predicate RunsEverything(h: Host, s: Store, id: string) {
    id in AssignedIds(s) && AssignmentOf(s, id).plugin == EVERYTHING && ConfigAt(h, s, id).Some?
  }

  /**
   A tunnel for one plugin gives up the diagnostics address and one for everything
   keeps it, so the port is bound at most once exactly when no address is set or at
   most one tunnel for everything runs.
   */
  lemma OneBindsExactly(h: Host, s: Store)
    ensures OneBinds(h, s)
            <==> h.base.diagnostics == ""
                 || forall i, j | RunsEverything(h, s, i) && RunsEverything(h, s, j) :: i == j
  {
    forall c | c in Configs(h, s) && c.base.diagnostics != ""
      ensures h.base.diagnostics != "" && RunsEverything(h, s, c.tunnelId) && ConfigAt(h, s, c.tunnelId) == Some(c)
    {
      ConfigsHold(h, s, c);
    }
    if h.base.diagnostics != "" {
      forall i | RunsEverything(h, s, i)
        ensures ConfigAt(h, s, i).value in Configs(h, s) && ConfigAt(h, s, i).value.base.diagnostics != ""
        ensures ConfigAt(h, s, i).value.tunnelId == i
      {
        ConfigsHold(h, s, ConfigAt(h, s, i).value);
      }
      if OneBinds(h, s) {
        forall i, j | RunsEverything(h, s, i) && RunsEverything(h, s, j) ensures i == j {
          assert ConfigAt(h, s, i).value == ConfigAt(h, s, j).value;
        }
      }
    }
  }

  /** The failing input: two tunnels for everything under one account both keep the address. */
  lemma TwoTunnelsBind(h: Host, s: Store, i: string, j: string)
    requires |h.accounts| == 1 && h.accounts[0].enabled && h.base.diagnostics != ""
    requires i != j && Readable(i) && Readable(j)
    requires s == map[TunnelPlugin(i) := EVERYTHING, TunnelPlugin(j) := EVERYTHING]
    ensures !OneBinds(h, s)
  {
    assert TunnelPlugin(i).id in AssignedIds(s) && TunnelPlugin(j).id in AssignedIds(s);
    assert Trim("") == "";
    assert RunsEverything(h, s, i) && RunsEverything(h, s, j);
    OneBindsExactly(h, s);
  }
}
