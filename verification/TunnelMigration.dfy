/** Moving the old plugin-keyed tunnel assignments onto each tunnel's own keys. */
module TunnelMigration {
  import opened Wrappers
  import opened Text
  import opened Sorting
  import opened SettingsStore
  import opened Tunnels
  import opened TunnelAccounts

  /** Where the old layout kept an assignment: under a plugin, or in the aggregate's own pair. */
  datatype Source = FromPlugin(plugin: string) | FromAggregate

  function IdOf(s: Tunnels.Store, src: Source): string {
    Str(s, if src.FromPlugin? then PluginTunnel(src.plugin) else AggregateId, "")
  }

  function PluginOf(src: Source): string {
    if src.FromPlugin? then src.plugin else EVERYTHING
  }

  function AccountOf(s: Tunnels.Store, src: Source): string {
    Str(s, if src.FromPlugin? then PluginAccount(src.plugin) else AggregateAccount, "")
  }

  /** The source names a tunnel that has no assignment of its own yet. */
  predicate Carries(s: Tunnels.Store, src: Source) {
    (src.FromPlugin? ==> src.plugin != "") && IdOf(s, src) != "" && TunnelPlugin(IdOf(s, src)) !in s
  }

  ghost function OldPlugins(s: Tunnels.Store): set<string> {
    set k | k in s && k.PluginTunnel? && k.plugin != "" :: k.plugin
  }

  // ---- The move, for one order of the old keys ----------------------------

  function Moves(s: Tunnels.Store, src: Source): seq<Change<Key, string>> {
    if Carries(s, src) then
      [Put(TunnelPlugin(IdOf(s, src)), PluginOf(src), false),
       Put(TunnelAccount(IdOf(s, src)), AccountOf(s, src), false)]
    else []
  }

  /** The changes for the old keys, taken in the order given. */
  function PluginBatch(s: Tunnels.Store, plugins: seq<string>): seq<Change<Key, string>> {
    if plugins == [] then [] else
      var p := plugins[|plugins| - 1];
      PluginBatch(s, plugins[..|plugins| - 1])
      + ([Delete(PluginTunnel(p)), Delete(PluginAccount(p))] + Moves(s, FromPlugin(p)))
  }

  function AggregateBatch(s: Tunnels.Store): seq<Change<Key, string>> {
    if Str(s, AggregateId, "") == "" then []
    else Moves(s, FromAggregate) + [Delete(AggregateId), Delete(AggregateAccount)]
  }

  function Batch(s: Tunnels.Store, plugins: seq<string>): seq<Change<Key, string>> {
    PluginBatch(s, plugins) + AggregateBatch(s)
  }

  /** The store after the move, when the old keys came in this order. */
  function Migrated(s: Tunnels.Store, plugins: seq<string>): Tunnels.Store {
    Applied(s, Batch(s, plugins))
  }

  /** The changes for one old key: it goes, its account goes, and what it carries is put where it belongs. */
  method MoveOld(s: Tunnels.Store, p: string) returns (changes: seq<Change<Key, string>>)
    requires p != ""
    ensures changes == [Delete(PluginTunnel(p)), Delete(PluginAccount(p))] + Moves(s, FromPlugin(p))
  {
    changes := [Delete(PluginTunnel(p)), Delete(PluginAccount(p))];
    var id := Str(s, PluginTunnel(p), "");
    if id != "" && TunnelPlugin(id) !in s {
      changes := changes + [Put(TunnelPlugin(id), p, false),
                            Put(TunnelAccount(id), Str(s, PluginAccount(p), ""), false)];
    }
  }

  lemma PluginBatchNext(s: Tunnels.Store, order: seq<string>, p: string)
    ensures PluginBatch(s, order + [p])
            == PluginBatch(s, order) + ([Delete(PluginTunnel(p)), Delete(PluginAccount(p))] + Moves(s, FromPlugin(p)))
  {
    assert (order + [p])[..|order|] == order;
  }

  /** The changes for every old key, in the order they are met. */
  method MoveAllOld(s: Tunnels.Store) returns (batch: seq<Change<Key, string>>, ghost order: seq<string>)
    ensures forall p :: p in order <==> p != "" && PluginTunnel(p) in s
    ensures batch == PluginBatch(s, order)
  {
    batch, order := [], [];
    var keys := s.Keys;
    while keys != {}
      invariant keys <= s.Keys
      invariant forall p :: p in order <==> p != "" && PluginTunnel(p) in s.Keys - keys
      invariant batch == PluginBatch(s, order)
      decreases keys
    {
      var key :| key in keys;
      keys := keys - {key};
      if key.PluginTunnel? && key.plugin != "" {
        var changes := MoveOld(s, key.plugin);
        PluginBatchNext(s, order, key.plugin);
        order := order + [key.plugin];
        batch := batch + changes;
      }
    }
  }

  /** The changes for the aggregate's own pair. */
  method MoveAggregate(s: Tunnels.Store) returns (changes: seq<Change<Key, string>>)
    ensures changes == AggregateBatch(s)
  {
    changes := [];
    var id := Str(s, AggregateId, "");
    if id != "" {
      if TunnelPlugin(id) !in s {
        changes := [Put(TunnelPlugin(id), EVERYTHING, false),
                    Put(TunnelAccount(id), Str(s, AggregateAccount, ""), false)];
      }
      changes := changes + [Delete(AggregateId), Delete(AggregateAccount)];
    }
  }

  lemma OrderListsOld(s: Tunnels.Store, order: seq<string>)
    requires forall p :: p in order <==> p != "" && PluginTunnel(p) in s
    ensures IsOrder(s, order)
  {
    forall p ensures p in order <==> p in OldPlugins(s) {
      if p in order { assert PluginTunnel(p).plugin in OldPlugins(s); }
    }
  }

  /** Whatever order the keys come in, the batch is that of the old keys in some order. */
  method MigrateTunnelAssignments(s: Tunnels.Store) returns (batch: seq<Change<Key, string>>)
    ensures exists order :: IsOrder(s, order) && batch == Batch(s, order)
  {
    ghost var order;
    batch, order := MoveAllOld(s);
    OrderListsOld(s, order);
    var last := MoveAggregate(s);
    batch := batch + last;
  }

  // ---- What the move leaves under each key --------------------------------

  /** The last of the plugins that carries the tunnel. */
  function LastCarrier(s: Tunnels.Store, plugins: seq<string>, id: string): (r: Option<string>)
    ensures r.Some? ==> r.value in plugins && Carries(s, FromPlugin(r.value)) && IdOf(s, FromPlugin(r.value)) == id
    ensures r.None? ==> forall p | p in plugins :: !(Carries(s, FromPlugin(p)) && IdOf(s, FromPlugin(p)) == id)
  {
    if plugins == [] then None else
      var n := |plugins| - 1;
      var p := plugins[n];
      assert forall q :: q in plugins <==> q in plugins[..n] || q == p;
      if Carries(s, FromPlugin(p)) && IdOf(s, FromPlugin(p)) == id then Some(p)
      else LastCarrier(s, plugins[..n], id)
  }

  /** The one source a tunnel's assignment is taken from: the aggregate's pair is written last. */
  function WinnerOf(s: Tunnels.Store, plugins: seq<string>, id: string): (r: Option<Source>)
    ensures r.Some? ==> Carries(s, r.value) && IdOf(s, r.value) == id
  {
    if Carries(s, FromAggregate) && IdOf(s, FromAggregate) == id then Some(FromAggregate)
    else match LastCarrier(s, plugins, id)
      case None => None
      case Some(p) => Some(FromPlugin(p))
  }

  lemma AppliedConcat(t: Tunnels.Store, a: seq<Change<Key, string>>, b: seq<Change<Key, string>>)
    ensures Applied(t, a + b) == Applied(Applied(t, a), b)
  {
    if b == [] {
      assert a + b == a;
    } else {
      var n := |b| - 1;
      AppliedConcat(t, a, b[..n]);
      assert (a + b)[..|a + b| - 1] == a + b[..n];
    }
  }

  /** One source's changes on their own. */
  function Moved(s: Tunnels.Store, t: Tunnels.Store, src: Source): Tunnels.Store {
    if Carries(s, src)
    then t[TunnelPlugin(IdOf(s, src)) := PluginOf(src)][TunnelAccount(IdOf(s, src)) := AccountOf(s, src)]
    else t
  }

  lemma MovesApplied(s: Tunnels.Store, t: Tunnels.Store, src: Source)
    ensures Applied(t, Moves(s, src)) == Moved(s, t, src)
  {
    if Carries(s, src) {
      var c, d := Moves(s, src)[0], Moves(s, src)[1];
      assert Moves(s, src) == [c] + [d] && [c] == [] + [c];
      AppliedNext(t, [c], d);
      AppliedNext(t, [], c);
    }
  }

  lemma DeletesApplied(t: Tunnels.Store, k: Key, l: Key)
    ensures Applied(t, [Delete(k), Delete(l)]) == t - {k, l}
  {
    var c, d: Change<Key, string> := Delete(k), Delete(l);
    assert [c, d] == [c] + [d] && [c] == [] + [c];
    AppliedNext(t, [c], d);
    AppliedNext(t, [], c);
  }

  lemma PluginStep(s: Tunnels.Store, plugins: seq<string>)
    requires plugins != []
    ensures var n := |plugins| - 1;
            var before := Applied(s, PluginBatch(s, plugins[..n]));
            Applied(s, PluginBatch(s, plugins))
            == Moved(s, before - {PluginTunnel(plugins[n]), PluginAccount(plugins[n])}, FromPlugin(plugins[n]))
  {
    var n := |plugins| - 1;
    var p := plugins[n];
    var del, mov := [Delete(PluginTunnel(p)), Delete(PluginAccount(p))], Moves(s, FromPlugin(p));
    var before := Applied(s, PluginBatch(s, plugins[..n]));
    AppliedConcat(s, PluginBatch(s, plugins[..n]), del + mov);
    AppliedConcat(before, del, mov);
    DeletesApplied(before, PluginTunnel(p), PluginAccount(p));
    MovesApplied(s, before - {PluginTunnel(p), PluginAccount(p)}, FromPlugin(p));
  }

  /** What the old keys' changes leave under a key. */
  ghost predicate AfterPlugins(s: Tunnels.Store, plugins: seq<string>, t: Tunnels.Store, k: Key) {
    match k
    case TunnelPlugin(id) =>
      (match LastCarrier(s, plugins, id) case Some(p) => k in t && t[k] == p case None => SameAt(s, t, k))
    case TunnelAccount(id) =>
      (match LastCarrier(s, plugins, id)
       case Some(p) => k in t && t[k] == AccountOf(s, FromPlugin(p)) case None => SameAt(s, t, k))
    case PluginTunnel(p) => if p in plugins then k !in t else SameAt(s, t, k)
    case PluginAccount(p) => if p in plugins then k !in t else SameAt(s, t, k)
    case _ => SameAt(s, t, k)
  }

  ghost predicate SameAt(s: Tunnels.Store, t: Tunnels.Store, k: Key) {
    (k in t <==> k in s) && (k in s ==> t[k] == s[k])
  }

  lemma {:induction false} PluginBatchLeaves(s: Tunnels.Store, plugins: seq<string>, k: Key)
    ensures AfterPlugins(s, plugins, Applied(s, PluginBatch(s, plugins)), k)
  {
    if plugins == [] {
    } else {
      var n := |plugins| - 1;
      PluginBatchLeaves(s, plugins[..n], k);
      PluginStep(s, plugins);
      PluginMoveLeaves(s, plugins, Applied(s, PluginBatch(s, plugins[..n])), k);
    }
  }

  /** What one more old key's changes leave. */
  lemma PluginMoveLeaves(s: Tunnels.Store, plugins: seq<string>, t: Tunnels.Store, k: Key)
    requires plugins != [] && AfterPlugins(s, plugins[..|plugins| - 1], t, k)
    ensures var p := plugins[|plugins| - 1];
            AfterPlugins(s, plugins, Moved(s, t - {PluginTunnel(p), PluginAccount(p)}, FromPlugin(p)), k)
  {
    var n := |plugins| - 1;
    assert forall p :: p in plugins <==> p in plugins[..n] || p == plugins[n];
  }

  /** What the whole move leaves under a key. */
  ghost predicate AfterMove(s: Tunnels.Store, plugins: seq<string>, t: Tunnels.Store, k: Key) {
    match k
    case TunnelPlugin(id) =>
      (match WinnerOf(s, plugins, id) case Some(src) => k in t && t[k] == PluginOf(src) case None => SameAt(s, t, k))
    case TunnelAccount(id) =>
      (match WinnerOf(s, plugins, id)
       case Some(src) => k in t && t[k] == AccountOf(s, src) case None => SameAt(s, t, k))
    case PluginTunnel(p) => if p in plugins then k !in t else SameAt(s, t, k)
    case PluginAccount(p) => if p in plugins then k !in t else SameAt(s, t, k)
    case OtherKey(_) => SameAt(s, t, k)
    case _ => if Str(s, AggregateId, "") == "" then SameAt(s, t, k) else k !in t
  }

  lemma MoveLeaves(s: Tunnels.Store, plugins: seq<string>, k: Key)
    ensures AfterMove(s, plugins, Migrated(s, plugins), k)
  {
    var t := Applied(s, PluginBatch(s, plugins));
    PluginBatchLeaves(s, plugins, k);
    AppliedConcat(s, PluginBatch(s, plugins), AggregateBatch(s));
    AggregateApplied(s, t);
    AggregateLeaves(s, plugins, t, k);
  }

  /** The aggregate's changes, applied. */
  function AggregateMoved(s: Tunnels.Store, t: Tunnels.Store): Tunnels.Store {
    if Str(s, AggregateId, "") == "" then t else Moved(s, t, FromAggregate) - {AggregateId, AggregateAccount}
  }

  lemma AggregateApplied(s: Tunnels.Store, t: Tunnels.Store)
    ensures Applied(t, AggregateBatch(s)) == AggregateMoved(s, t)
  {
    if Str(s, AggregateId, "") != "" {
      AppliedConcat(t, Moves(s, FromAggregate), [Delete(AggregateId), Delete(AggregateAccount)]);
      MovesApplied(s, t, FromAggregate);
      DeletesApplied(Moved(s, t, FromAggregate), AggregateId, AggregateAccount);
    }
  }

  lemma AggregateLeaves(s: Tunnels.Store, plugins: seq<string>, t: Tunnels.Store, k: Key)
    requires AfterPlugins(s, plugins, t, k)
    ensures AfterMove(s, plugins, AggregateMoved(s, t), k)
  {
  }

  // ---- What the move promises ---------------------------------------------

  /** A listing of the old keys, in some order. */
  ghost predicate IsOrder(s: Tunnels.Store, plugins: seq<string>) {
    Elements(plugins) == OldPlugins(s)
  }

  lemma OrderHolds(s: Tunnels.Store, plugins: seq<string>, p: string)
    requires IsOrder(s, plugins)
    ensures p in plugins <==> p != "" && PluginTunnel(p) in s
  {
    assert p in plugins <==> p in Elements(plugins);
    if p != "" && PluginTunnel(p) in s { assert PluginTunnel(p).plugin in OldPlugins(s); }
  }

  /** No plugin-keyed assignment and no aggregate pair is left, and no other key is touched. */
  lemma NothingOldRemains(s: Tunnels.Store, plugins: seq<string>, p: string)
    requires IsOrder(s, plugins)
    ensures var t := Migrated(s, plugins);
            && (p != "" ==> PluginTunnel(p) !in t && (PluginTunnel(p) in s ==> PluginAccount(p) !in t))
            && Str(t, AggregateId, "") == ""
            && (Str(s, AggregateId, "") != "" ==> AggregateId !in t && AggregateAccount !in t)
            && (OtherKey(p) in t <==> OtherKey(p) in s) && (OtherKey(p) in s ==> t[OtherKey(p)] == s[OtherKey(p)])
  {
    MoveLeaves(s, plugins, AggregateAccount);
    MoveLeaves(s, plugins, OtherKey(p));
    OrderHolds(s, plugins, p);
    MoveLeaves(s, plugins, PluginTunnel(p));
    MoveLeaves(s, plugins, PluginAccount(p));
    MoveLeaves(s, plugins, AggregateId);
  }

  /** The tunnel's plugin and account in `t` are those an old plugin key of `s` gave it. */
  predicate MovedFromPlugin(s: Tunnels.Store, t: Tunnels.Store, id: string, p: string) {
    && p != "" && PluginTunnel(p) in s && s[PluginTunnel(p)] == id
    && TunnelPlugin(id) in t && t[TunnelPlugin(id)] == p
    && Str(t, TunnelAccount(id), "") == (if PluginAccount(p) in s then s[PluginAccount(p)] else "")
  }

  /** They are those of the aggregate's own pair. */
  predicate MovedFromAggregate(s: Tunnels.Store, t: Tunnels.Store, id: string) {
    && AggregateId in s && s[AggregateId] == id
    && TunnelPlugin(id) in t && t[TunnelPlugin(id)] == "*"
    && Str(t, TunnelAccount(id), "") == (if AggregateAccount in s then s[AggregateAccount] else "")
  }

  /**
   A tunnel gains an assignment exactly when some old key held its id, and then its
   plugin and its account come from one and the same old pair, whatever the order.
   */
  lemma OneSourceEach(s: Tunnels.Store, plugins: seq<string>, id: string)
    requires IsOrder(s, plugins) && TunnelPlugin(id) !in s
    ensures var t := Migrated(s, plugins);
            && (TunnelPlugin(id) in t
                <==> id != "" && ((AggregateId in s && s[AggregateId] == id)
                                  || exists p :: p != "" && PluginTunnel(p) in s && s[PluginTunnel(p)] == id))
            && (TunnelPlugin(id) in t ==> MovedFromAggregate(s, t, id) || exists p :: MovedFromPlugin(s, t, id, p))
  {
    MoveLeaves(s, plugins, TunnelPlugin(id));
    MoveLeaves(s, plugins, TunnelAccount(id));
    var w := WinnerOf(s, plugins, id);
    if p :| p != "" && PluginTunnel(p) in s && s[PluginTunnel(p)] == id && id != "" {
      OrderHolds(s, plugins, p);
      assert Carries(s, FromPlugin(p));
    }
    if w.Some? && w.value.FromPlugin? { assert MovedFromPlugin(s, Migrated(s, plugins), id, w.value.plugin); }
  }

  /** Running it again changes nothing, and has nothing to do. */
  lemma SecondRunIsEmpty(s: Tunnels.Store, plugins: seq<string>, again: seq<string>)
    requires IsOrder(s, plugins) && IsOrder(Migrated(s, plugins), again)
    ensures Batch(Migrated(s, plugins), again) == []
    ensures Migrated(Migrated(s, plugins), again) == Migrated(s, plugins)
  {
    var t := Migrated(s, plugins);
    forall p ensures p !in again {
      NothingOldRemains(s, plugins, p);
      OrderHolds(t, again, p);
    }
    if again != [] { HeadIsElement(again); }
    NothingOldRemains(s, plugins, "");
  }

  /** Every tunnel-keyed value there was is still there. */
  ghost predicate KeepsTunnelValues(s: Tunnels.Store, t: Tunnels.Store) {
    forall k: Key | (k.TunnelPlugin? || k.TunnelAccount?) && k in s :: k in t && t[k] == s[k]
  }

  /** A source that some order of the old keys lets win. */
  predicate MayWin(s: Tunnels.Store, src: Source) {
    && Carries(s, src)
    && (src.FromPlugin? ==> !(Carries(s, FromAggregate) && IdOf(s, FromAggregate) == IdOf(s, src)))
  }

  /** The source would overwrite an account already recorded for its tunnel. */
  predicate Overwrites(s: Tunnels.Store, src: Source) {
    var k := TunnelAccount(IdOf(s, src));
    MayWin(s, src) && k in s && s[k] != AccountOf(s, src)
  }

  /**
   The move looks only at whether a tunnel has a plugin, so it can overwrite an
   account recorded for a tunnel that has none. It keeps every tunnel-keyed value,
   whatever the order, exactly when no source would do that.
   */
  lemma KeepsTunnelValuesExactly(s: Tunnels.Store)
    ensures (forall plugins | IsOrder(s, plugins) :: KeepsTunnelValues(s, Migrated(s, plugins)))
            <==> forall src :: !Overwrites(s, src)
  {
    if forall src :: !Overwrites(s, src) {
      forall plugins | IsOrder(s, plugins) ensures KeepsTunnelValues(s, Migrated(s, plugins)) {
        forall k: Key | (k.TunnelPlugin? || k.TunnelAccount?) && k in s
          ensures k in Migrated(s, plugins) && Migrated(s, plugins)[k] == s[k]
        {
          MoveLeaves(s, plugins, k);
          var w := WinnerOf(s, plugins, k.id);
          if w.Some? { assert !Overwrites(s, w.value); }
        }
      }
    }
    forall src | Overwrites(s, src)
      ensures exists plugins :: IsOrder(s, plugins) && !KeepsTunnelValues(s, Migrated(s, plugins))
    {
      var plugins := OrderEndingIn(s, src);
      MoveLeaves(s, plugins, TunnelAccount(IdOf(s, src)));
    }
  }

  /** An order of the old keys in which the source comes last. */
  lemma OrderEndingIn(s: Tunnels.Store, src: Source) returns (plugins: seq<string>)
    requires MayWin(s, src)
    ensures IsOrder(s, plugins) && WinnerOf(s, plugins, IdOf(s, src)) == Some(src)
  {
    if src.FromAggregate? {
      plugins := Listed(IdKey, OldPlugins(s));
    } else {
      var rest := OldPlugins(s) - {src.plugin};
      var first := Listed(IdKey, rest);
      plugins := first + [src.plugin];
      assert PluginTunnel(src.plugin).plugin in OldPlugins(s);
      forall p ensures p in plugins <==> p in OldPlugins(s) {
        assert p in first <==> p in Elements(first);
      }
    }
  }

  /** An account recorded for a tunnel without a plugin does not survive the move. */
  lemma RecordedAccountIsLost()
    ensures var s: Tunnels.Store := map[PluginTunnel("graylog") := "t1", TunnelAccount("t1") := "acct_b"];
            && IsOrder(s, ["graylog"]) && Overwrites(s, FromPlugin("graylog"))
            && Str(Migrated(s, ["graylog"]), TunnelAccount("t1"), "") != "acct_b"
  {
    var s: Tunnels.Store := map[PluginTunnel("graylog") := "t1", TunnelAccount("t1") := "acct_b"];
    var order := ["graylog"];
    assert order[0] in Elements(order) && PluginTunnel("graylog").plugin in OldPlugins(s);
    assert Carries(s, FromPlugin("graylog"));
    MoveLeaves(s, order, TunnelAccount("t1"));
  }

  /** Put and delete never meet in one batch, so the cache agrees with the table. */
  lemma BatchAgrees(s: Tunnels.Store, plugins: seq<string>)
    ensures NoPutAfterDelete(Batch(s, plugins))
  {
    var batch := Batch(s, plugins);
    forall k | k in Deletes(batch) ensures !EndsPut(batch, k) {
      var c :| c in batch && c.Delete? && c.key == k;
      BatchKeys(s, plugins, c);
      AppliedAt(map[], batch, k);
      PutsAt(batch, k);
      if k in Puts(batch) {
        var d :| d in batch && d.Put? && d.key == k;
        BatchKeys(s, plugins, d);
      }
    }
  }

  lemma BatchKeys(s: Tunnels.Store, plugins: seq<string>, c: Change<Key, string>)
    requires c in Batch(s, plugins)
    ensures c.Put? <==> c.key.TunnelPlugin? || c.key.TunnelAccount?
  {
    if c in PluginBatch(s, plugins) { PluginBatchKeys(s, plugins, c); }
  }

  lemma {:induction false} PluginBatchKeys(s: Tunnels.Store, plugins: seq<string>, c: Change<Key, string>)
    requires c in PluginBatch(s, plugins)
    ensures c.Put? <==> c.key.TunnelPlugin? || c.key.TunnelAccount?
  {
    if c in PluginBatch(s, plugins[..|plugins| - 1]) {
      PluginBatchKeys(s, plugins[..|plugins| - 1], c);
    }
  }

  // ---- The order of a start -----------------------------------------------

  /** The store once a start has pinned and then migrated. */
  ghost function Started(h: Host, s: Tunnels.Store, order: seq<string>): Tunnels.Store {
    Migrated(Pinned(h.accounts, s), order)
  }

  /** `more` is the one account and others that no tunnel and no old source names. */
  ghost predicate JoinedUnnamed(a: Account, more: seq<Account>, s: Tunnels.Store) {
    && Joined(a, more, s)
    && forall b, src | b in more && b != a && Carries(s, src) :: Trim(AccountOf(s, src)) != b.id
  }

  /** An old source that may win, names nobody, and carries a tunnel the account serves. */
  predicate CarriedUnpinned(h: Host, s: Tunnels.Store, src: Source)
    requires |h.accounts| == 1
  {
    && MayWin(s, src) && Readable(IdOf(s, src)) && Trim(AccountOf(s, src)) == ""
    && Serves(h, Assignment(IdOf(s, src), PluginOf(src), AccountOf(s, src)), h.accounts[0])
  }

  /** Pinning leaves the old layout alone. */
  lemma PinningKeepsSources(a: Account, s: Tunnels.Store, src: Source)
    ensures var s' := Pinned([a], s);
            && IdOf(s', src) == IdOf(s, src) && AccountOf(s', src) == AccountOf(s, src)
            && (Carries(s', src) <==> Carries(s, src))
  {
    PinnedOverAt(s, Ids(s), a.id, if src.FromPlugin? then PluginTunnel(src.plugin) else AggregateId);
    PinnedOverAt(s, Ids(s), a.id, if src.FromPlugin? then PluginAccount(src.plugin) else AggregateAccount);
    PinnedOverAt(s, Ids(s), a.id, TunnelPlugin(IdOf(s, src)));
  }

  /** What a start leaves of one tunnel: what its winning source says, or what pinning left. */
  lemma StartedAt(a: Account, s: Tunnels.Store, order: seq<string>, id: string)
    ensures var s', t := Pinned([a], s), Migrated(Pinned([a], s), order);
            match WinnerOf(s', order, id)
            case Some(src) =>
              && id !in AssignedIds(s) && Carries(s, src) && IdOf(s, src) == id
              && (id in AssignedIds(t) <==> Readable(id))
              && AssignmentOf(t, id) == Assignment(id, PluginOf(src), AccountOf(s, src))
            case None =>
              (id in AssignedIds(t) <==> id in AssignedIds(s')) && AssignmentOf(t, id) == AssignmentOf(s', id)
  {
    var s', t := Pinned([a], s), Migrated(Pinned([a], s), order);
    MoveLeaves(s', order, TunnelPlugin(id));
    MoveLeaves(s', order, TunnelAccount(id));
    assert id in AssignedIds(t) <==> TunnelPlugin(id) in t && Readable(id);
    assert id in AssignedIds(s') <==> TunnelPlugin(id) in s' && Readable(id);
    if WinnerOf(s', order, id).Some? { PinningKeepsSources(a, s, WinnerOf(s', order, id).value); }
  }

  /** The tunnels a start leaves unpinned: those carried without an account, and those blank from the first. */
  lemma UnpinnedAfterStart(h: Host, s: Tunnels.Store, order: seq<string>, id: string)
    requires |h.accounts| == 1 && ProperId(h.accounts[0].id)
    ensures Unpinned(h, Started(h, s, order), id)
            <==> match WinnerOf(Pinned(h.accounts, s), order, id)
                 case Some(src) =>
                   && Readable(id) && Trim(AccountOf(s, src)) == ""
                   && Serves(h, Assignment(id, PluginOf(src), AccountOf(s, src)), h.accounts[0])
                 case None => BlankButSet(h, s, id)
  {
    var a := h.accounts[0];
    assert h.accounts == [a];
    StartedAt(a, s, order, id);
    UnpinnedAfterPinning(h, s, id);
    RunsExactly(h, AssignmentOf(Started(h, s, order), id));
  }

  lemma JoinedAfterStart(h: Host, more: seq<Account>, s: Tunnels.Store, order: seq<string>)
    requires |h.accounts| == 1 && ProperId(h.accounts[0].id) && JoinedUnnamed(h.accounts[0], more, s)
    ensures Joined(h.accounts[0], more, Started(h, s, order))
  {
    var a, t := h.accounts[0], Started(h, s, order);
    assert h.accounts == [a];
    PinnedIds(h.accounts, s);
    forall b, id | b in more && b != a && id in AssignedIds(t) ensures Trim(Str(t, TunnelAccount(id), "")) != b.id {
      StartedAt(a, s, order, id);
      assert Str(t, TunnelAccount(id), "") == AssignmentOf(t, id).account;
      if WinnerOf(Pinned([a], s), order, id).None? {
        PinnedAt(a, s, id);
        FindOnly(more, a);
        FindOnly(more, b);
      }
    }
  }

  /** A winner may win. */
  lemma WinnerMayWin(a: Account, s: Tunnels.Store, order: seq<string>, id: string)
    requires WinnerOf(Pinned([a], s), order, id).Some?
    ensures MayWin(s, WinnerOf(Pinned([a], s), order, id).value)
    ensures IdOf(s, WinnerOf(Pinned([a], s), order, id).value) == id
  {
    PinningKeepsSources(a, s, WinnerOf(Pinned([a], s), order, id).value);
    PinningKeepsSources(a, s, FromAggregate);
  }

  /** For one order of the old keys, when a start leaves what more accounts would stop. */
  lemma StartThenMore(h: Host, more: seq<Account>, s: Tunnels.Store, order: seq<string>)
    requires |h.accounts| == 1 && ProperId(h.accounts[0].id) && JoinedUnnamed(h.accounts[0], more, s)
    ensures Configs(h.(accounts := more), Started(h, s, order)) == Configs(h, Started(h, s, order))
            <==> forall id :: !Unpinned(h, Started(h, s, order), id)
  {
    JoinedAfterStart(h, more, s, order);
    MoreAccountsExactly(h, more, Started(h, s, order));
  }

  /** More accounts change nothing about what runs after a start, whatever order the old keys came in. */
  ghost predicate SafeAfterStart(h: Host, more: seq<Account>, s: Tunnels.Store) {
    forall order | IsOrder(Pinned(h.accounts, s), order) ::
      Configs(h.(accounts := more), Started(h, s, order)) == Configs(h, Started(h, s, order))
  }

  /**
   A start pins before it migrates, so what the migration carries over stays unpinned
   until the next start. Adding accounts in between leaves what runs as it was exactly
   when no running tunnel's stored account is white space and no old source that may
   win carries, without an account, a tunnel the one account serves.
   */
  lemma StartKeepsTunnelsExactly(h: Host, more: seq<Account>, s: Tunnels.Store)
    requires |h.accounts| == 1 && ProperId(h.accounts[0].id) && JoinedUnnamed(h.accounts[0], more, s)
    ensures SafeAfterStart(h, more, s)
            <==> (forall id :: !BlankButSet(h, s, id)) && (forall src :: !CarriedUnpinned(h, s, src))
  {
    var a, s' := h.accounts[0], Pinned(h.accounts, s);
    assert h.accounts == [a];
    forall id | BlankButSet(h, s, id) ensures !SafeAfterStart(h, more, s) {
      var order := Listed(IdKey, OldPlugins(s'));
      assert IsOrder(s', order);
      StartedAt(a, s, order, id);
      UnpinnedAfterStart(h, s, order, id);
      StartThenMore(h, more, s, order);
    }
    forall src | CarriedUnpinned(h, s, src) ensures !SafeAfterStart(h, more, s) {
      PinningKeepsSources(a, s, src);
      PinningKeepsSources(a, s, FromAggregate);
      var order := OrderEndingIn(s', src);
      UnpinnedAfterStart(h, s, order, IdOf(s, src));
      StartThenMore(h, more, s, order);
    }
    if (forall id :: !BlankButSet(h, s, id)) && (forall src :: !CarriedUnpinned(h, s, src)) {
      forall order | IsOrder(s', order)
        ensures Configs(h.(accounts := more), Started(h, s, order)) == Configs(h, Started(h, s, order))
      {
        forall id ensures !Unpinned(h, Started(h, s, order), id) { NothingLeftUnpinned(h, s, order, id); }
        StartThenMore(h, more, s, order);
      }
    }
  }

  lemma NothingLeftUnpinned(h: Host, s: Tunnels.Store, order: seq<string>, id: string)
    requires |h.accounts| == 1 && ProperId(h.accounts[0].id)
    requires !BlankButSet(h, s, id) && forall src :: !CarriedUnpinned(h, s, src)
    ensures !Unpinned(h, Started(h, s, order), id)
  {
    var a, w := h.accounts[0], WinnerOf(Pinned(h.accounts, s), order, id);
    assert h.accounts == [a];
    UnpinnedAfterStart(h, s, order, id);
    if w.Some? {
      WinnerMayWin(a, s, order, id);
      assert !CarriedUnpinned(h, s, w.value);
    }
  }

  /** The failing input: a tunnel carried over with no account of its own, stopped by a second account. */
  lemma CarriedTunnelsStayUnpinned(a: Account, b: Account, base: Base)
    requires ProperId(a.id) && a.enabled && a.grants == [] && ProperId(b.id) && b.id != a.id
    ensures var s: Tunnels.Store := map[PluginTunnel("graylog") := "t1"];
            var h := Host(base, [a], ["graylog"]);
            var started := Migrated(Pinned([a], s), ["graylog"]);
            && IsOrder(Pinned([a], s), ["graylog"])
            && ConfigAt(h, started, "t1").Some?
            && Configs(h.(accounts := [a, b]), started) != Configs(h, started)
  {
    var s: Tunnels.Store := map[PluginTunnel("graylog") := "t1"];
    var h := Host(base, [a], ["graylog"]);
    var order := ["graylog"];
    var t := Migrated(s, order);
    NothingToPin(a, s);
    CarriedOver(s, order);
    assert AsPrincipal(a).grants[0] in AsPrincipal(a).grants;
    SecondAccountStops(h, a, b, t, "t1");
  }

  /** With two accounts, a tunnel that names neither stops. */
  lemma SecondAccountStops(h: Host, a: Account, b: Account, t: Tunnels.Store, id: string)
    requires h.accounts == [a] && TunnelPlugin(id) in t && Readable(id)
    requires AssignmentOf(t, id).account == "" && Serves(h, AssignmentOf(t, id), a)
    ensures ConfigAt(h, t, id).Some?
    ensures Configs(h.(accounts := [a, b]), t) != Configs(h, t)
  {
    assert TunnelPlugin(id).id in AssignedIds(t);
    assert Trim("") == "";
    RunsExactly(h, AssignmentOf(t, id));
    RunsExactly(h.(accounts := [a, b]), AssignmentOf(t, id));
    ConfigsAgreeExactly(h.(accounts := [a, b]), t, h, t);
  }

  lemma NothingToPin(a: Account, s: Tunnels.Store)
    requires forall k | k in s :: !k.TunnelPlugin?
    ensures Pinned([a], s) == s
  {
    assert AssignedIds(s) == {};
    if Ids(s) != [] { HeadIsElement(Ids(s)); }
  }

  lemma CarriedOver(s: Tunnels.Store, order: seq<string>)
    requires s == map[PluginTunnel("graylog") := "t1"] && order == ["graylog"]
    ensures IsOrder(s, order)
    ensures TunnelPlugin("t1") in Migrated(s, order)
    ensures AssignmentOf(Migrated(s, order), "t1") == Assignment("t1", "graylog", "")
  {
    assert PluginTunnel("graylog").plugin in OldPlugins(s);
    assert order[0] in Elements(order);
    assert Carries(s, FromPlugin("graylog"));
    MoveLeaves(s, order, TunnelPlugin("t1"));
    MoveLeaves(s, order, TunnelAccount("t1"));
  }
}
