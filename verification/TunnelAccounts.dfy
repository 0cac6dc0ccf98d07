/** What accounts coming and going does to the tunnels that run. */
module TunnelAccounts {
  import opened Wrappers
  import opened Text
  import opened Sorting
  import opened SettingsStore
  import opened Tunnels

  // ---- Pinning ------------------------------------------------------------

  /** The store once every unnamed account among `ids` has been written down as `account`. */
  ghost function PinnedOver(s: Tunnels.Store, ids: seq<string>, account: string): Tunnels.Store {
    if ids == [] then s else
      var n := |ids| - 1;
      var before := PinnedOver(s, ids[..n], account);
      if Str(s, TunnelAccount(ids[n]), "") != "" then before else before[TunnelAccount(ids[n]) := account]
  }

  /** Pinning touches exactly the account keys of `ids` that are missing or empty. */
  lemma {:induction false} PinnedOverAt(s: Tunnels.Store, ids: seq<string>, account: string, k: Key)
    ensures var pins := k.TunnelAccount? && k.id in ids && Str(s, k, "") == "";
            var s' := PinnedOver(s, ids, account);
            && (k in s' <==> pins || k in s)
            && (k in s' ==> s'[k] == if pins then account else s[k])
  {
    if ids == [] {
    } else {
      var n := |ids| - 1;
      PinnedOverAt(s, ids[..n], account, k);
      assert forall id :: id in ids <==> id in ids[..n] || id == ids[n];
    }
  }

  /** What pinning leaves: with exactly one account, every assigned tunnel names it or another. */
  ghost function Pinned(accounts: seq<Account>, s: Tunnels.Store): Tunnels.Store {
    if |accounts| != 1 then s else PinnedOver(s, Ids(s), accounts[0].id)
  }

  method PinEach(s: Tunnels.Store, ids: seq<string>, account: string) returns (batch: seq<Change<Key, string>>)
    requires forall id | id in ids :: TunnelPlugin(id) in s
    ensures Applied(s, batch) == PinnedOver(s, ids, account) && Deletes(batch) == {}
  {
    batch := [];
    for i := 0 to |ids|
      invariant Applied(s, batch) == PinnedOver(s, ids[..i], account)
      invariant Deletes(batch) == {}
    {
      assert ids[..i + 1][..i] == ids[..i];
      if TunnelPlugin(ids[i]) !in s { continue; }
      if Str(s, TunnelAccount(ids[i]), "") != "" { continue; }
      var c := Put(TunnelAccount(ids[i]), account, false);
      AppliedNext(s, batch, c);
      batch := batch + [c];
    }
    assert ids[..|ids|] == ids;
  }

  method PinTunnelsToTheOnlyAccount(accounts: seq<Account>, s: Tunnels.Store)
    returns (batch: seq<Change<Key, string>>)
    ensures Applied(s, batch) == Pinned(accounts, s)
    ensures NoPutAfterDelete(batch)
  {
    batch := [];
    if |accounts| == 1 {
      var ids := AssignedTunnelIds(s);
      batch := PinEach(s, ids, accounts[0].id);
    }
  }

  /** An account id as the store makes them: not empty, nothing around it to trim. */
  predicate ProperId(id: string) {
    id != "" && Trim(id) == id
  }

  lemma PinnedAt(a: Account, s: Tunnels.Store, id: string)
    requires id in AssignedIds(s)
    ensures var s' := Pinned([a], s);
            AssignmentOf(s', id) == if Str(s, TunnelAccount(id), "") == ""
                                    then AssignmentOf(s, id).(account := a.id) else AssignmentOf(s, id)
  {
    assert id in Elements(Ids(s));
    PinnedOverAt(s, Ids(s), a.id, TunnelAccount(id));
    PinnedOverAt(s, Ids(s), a.id, TunnelPlugin(id));
  }

  lemma PinnedIds(accounts: seq<Account>, s: Tunnels.Store)
    ensures AssignedIds(Pinned(accounts, s)) == AssignedIds(s)
  {
    var s' := Pinned(accounts, s);
    forall id ensures id in AssignedIds(s') <==> id in AssignedIds(s) {
      if |accounts| == 1 { PinnedOverAt(s, Ids(s), accounts[0].id, TunnelPlugin(id)); }
      assert id in AssignedIds(s') <==> TunnelPlugin(id) in s' && Readable(id);
      assert id in AssignedIds(s) <==> TunnelPlugin(id) in s && Readable(id);
    }
  }

  /** Writing the only account down changes nothing about what runs. */
  lemma PinningKeepsConfigs(h: Host, s: Tunnels.Store)
    requires |h.accounts| == 1 && ProperId(h.accounts[0].id)
    ensures Configs(h, Pinned(h.accounts, s)) == Configs(h, s)
  {
    var a, s' := h.accounts[0], Pinned(h.accounts, s);
    assert h.accounts == [a];
    PinnedIds(h.accounts, s);
    forall id | id in AssignedIds(s) ensures ConfigAt(h, s', id) == ConfigAt(h, s, id) {
      PinnedAt(a, s, id);
      assert AccountFor([a], a.id) == AccountFor([a], "") == Some(a);
      ConfigByAccount(h, AssignmentOf(s, id), h, AssignmentOf(s', id));
    }
    ConfigsAgreeExactly(h, s', h, s);
  }

  lemma PinningIsIdempotent(accounts: seq<Account>, s: Tunnels.Store)
    requires |accounts| == 1 ==> accounts[0].id != ""
    ensures Pinned(accounts, Pinned(accounts, s)) == Pinned(accounts, s)
  {
    if |accounts| == 1 {
      var a, s' := accounts[0], Pinned(accounts, s);
      assert accounts == [a];
      PinnedIds(accounts, s);
      SortedUnique(IdKey, Ids(s'), Ids(s));
      forall id | id in Ids(s) ensures Str(s', TunnelAccount(id), "") != "" {
        assert id in Elements(Ids(s));
        PinnedAt(a, s, id);
      }
      forall k ensures k in PinnedOver(s', Ids(s'), a.id) <==> k in s'
               ensures k in s' ==> PinnedOver(s', Ids(s'), a.id)[k] == s'[k]
      {
        PinnedOverAt(s', Ids(s'), a.id, k);
      }
    }
  }

  // ---- More accounts ------------------------------------------------------

  /** `more` is the one account and others that no tunnel names. */
  ghost predicate Joined(a: Account, more: seq<Account>, s: Tunnels.Store) {
    && |more| >= 2 && a in more && DistinctIds(more)
    && forall b, id | b in more && b != a && id in AssignedIds(s) :: Trim(Str(s, TunnelAccount(id), "")) != b.id
  }

  /** A running tunnel that does not say whose account it uses. */
  ghost predicate Unpinned(h: Host, s: Tunnels.Store, id: string) {
    id in AssignedIds(s) && ConfigAt(h, s, id).Some? && Trim(Str(s, TunnelAccount(id), "")) == ""
  }

  lemma ResolvesAlike(a: Account, more: seq<Account>, s: Tunnels.Store, id: string)
    requires Joined(a, more, s) && id in AssignedIds(s)
    ensures var account := Str(s, TunnelAccount(id), "");
            AccountFor(more, account) == if Trim(account) == "" then None else AccountFor([a], account)
  {
    var t := Trim(Str(s, TunnelAccount(id), ""));
    FindOnly(more, a);
    assert Find([a], t) == if a.id == t then Some(a) else None;
  }

  /**
   Going from one account to several, the new ones named by no tunnel, leaves what
   runs as it was exactly when every running tunnel says whose account it uses.
   */
  lemma MoreAccountsExactly(h: Host, more: seq<Account>, s: Tunnels.Store)
    requires |h.accounts| == 1 && Joined(h.accounts[0], more, s)
    ensures Configs(h.(accounts := more), s) == Configs(h, s) <==> forall id :: !Unpinned(h, s, id)
  {
    var a, h' := h.accounts[0], h.(accounts := more);
    assert h.accounts == [a];
    forall id | id in AssignedIds(s)
      ensures ConfigAt(h', s, id) == if Trim(Str(s, TunnelAccount(id), "")) == "" then None else ConfigAt(h, s, id)
    {
      ResolvesAlike(a, more, s, id);
      ConfigByAccount(h', AssignmentOf(s, id), h, AssignmentOf(s, id));
    }
    ConfigsAgreeExactly(h', s, h, s);
    if forall id | id in AssignedIds(s) :: ConfigAt(h', s, id) == ConfigAt(h, s, id) {
      forall id ensures !Unpinned(h, s, id) {
        if id in AssignedIds(s) { assert ConfigAt(h', s, id) == ConfigAt(h, s, id); }
      }
    }
    if forall id :: !Unpinned(h, s, id) {
      forall id | id in AssignedIds(s) ensures ConfigAt(h', s, id) == ConfigAt(h, s, id) {
        assert !Unpinned(h, s, id);
      }
    }
  }

  /** A running tunnel whose stored account is white space: not empty, and nothing once trimmed. */
  ghost predicate BlankButSet(h: Host, s: Tunnels.Store, id: string) {
    && id in AssignedIds(s) && ConfigAt(h, s, id).Some?
    && Str(s, TunnelAccount(id), "") != "" && Trim(Str(s, TunnelAccount(id), "")) == ""
  }

  /**
   After pinning, adding accounts leaves what runs as it was exactly when no running
   tunnel's stored account is white space. Such a value is not pinned over, because
   pinning compares it untrimmed, and it names nothing once there are two accounts.
   */
  lemma PinnedThenMoreExactly(h: Host, more: seq<Account>, s: Tunnels.Store)
    requires |h.accounts| == 1 && ProperId(h.accounts[0].id)
    requires Joined(h.accounts[0], more, Pinned(h.accounts, s))
    ensures Configs(h.(accounts := more), Pinned(h.accounts, s)) == Configs(h, s)
            <==> forall id :: !BlankButSet(h, s, id)
  {
    var s' := Pinned(h.accounts, s);
    PinningKeepsConfigs(h, s);
    MoreAccountsExactly(h, more, s');
    forall id ensures Unpinned(h, s', id) <==> BlankButSet(h, s, id) { UnpinnedAfterPinning(h, s, id); }
    if forall id :: !BlankButSet(h, s, id) {
      forall id ensures !Unpinned(h, s', id) { assert !BlankButSet(h, s, id); }
    }
    if forall id :: !Unpinned(h, s', id) {
      forall id ensures !BlankButSet(h, s, id) { assert !Unpinned(h, s', id); }
    }
  }

  /** What pinning leaves unpinned is what it took for named. */
  lemma UnpinnedAfterPinning(h: Host, s: Tunnels.Store, id: string)
    requires |h.accounts| == 1 && ProperId(h.accounts[0].id)
    ensures Unpinned(h, Pinned(h.accounts, s), id) <==> BlankButSet(h, s, id)
  {
    var a, s' := h.accounts[0], Pinned(h.accounts, s);
    assert h.accounts == [a];
    PinningKeepsConfigs(h, s);
    PinnedIds(h.accounts, s);
    ConfigsAgreeExactly(h, s', h, s);
    assert Trim("") == "";
    if id in AssignedIds(s) {
      PinnedAt(a, s, id);
      assert ConfigAt(h, s', id) == ConfigAt(h, s, id);
    }
  }

  /** The failing input: an account stored as one space is left as it is, and a second account stops the tunnel. */
  lemma BlankAccountStops(h: Host, more: seq<Account>, s: Tunnels.Store, id: string)
    requires |h.accounts| == 1 && ProperId(h.accounts[0].id) && h.accounts[0].enabled && Readable(id)
    requires s == map[TunnelPlugin(id) := EVERYTHING, TunnelAccount(id) := " "]
    requires Joined(h.accounts[0], more, Pinned(h.accounts, s))
    ensures Configs(h.(accounts := more), Pinned(h.accounts, s)) != Configs(h, s)
  {
    assert TunnelPlugin(id).id in AssignedIds(s);
    assert Trim(" ") == "" by { assert TrimLeft(" ") == TrimLeft(""); }
    RunsExactly(h, AssignmentOf(s, id));
    assert BlankButSet(h, s, id);
    PinnedThenMoreExactly(h, more, s);
  }

  // ---- Removing an account ------------------------------------------------

  ghost function UnassignedOver(s: Tunnels.Store, ids: seq<string>, account: string): Tunnels.Store {
    if ids == [] then s else
      var n := |ids| - 1;
      var before := UnassignedOver(s, ids[..n], account);
      if Str(s, TunnelAccount(ids[n]), "") == account then before - {TunnelAccount(ids[n])} else before
  }

  /** Unassigning drops exactly the account keys of `ids` that hold the account. */
  lemma {:induction false} UnassignedOverAt(s: Tunnels.Store, ids: seq<string>, account: string, k: Key)
    ensures var drops := k.TunnelAccount? && k.id in ids && Str(s, k, "") == account;
            var s' := UnassignedOver(s, ids, account);
            && (k in s' <==> k in s && !drops)
            && (k in s' ==> s'[k] == s[k])
  {
    if ids == [] {
    } else {
      var n := |ids| - 1;
      UnassignedOverAt(s, ids[..n], account, k);
      assert forall id :: id in ids <==> id in ids[..n] || id == ids[n];
    }
  }

  method UnassignEach(s: Tunnels.Store, ids: seq<string>, account: string) returns (batch: seq<Change<Key, string>>)
    ensures Applied(s, batch) == UnassignedOver(s, ids, account) && Puts(batch) == map[]
  {
    batch := [];
    for i := 0 to |ids|
      invariant Applied(s, batch) == UnassignedOver(s, ids[..i], account)
      invariant Puts(batch) == map[]
    {
      var key := TunnelAccount(ids[i]);
      assert ids[..i + 1][..i] == ids[..i];
      if Str(s, key, "") == account {
        AppliedNext(s, batch, Delete(key));
        batch := batch + [Delete(key)];
      }
    }
    assert ids[..|ids|] == ids;
  }

  /** Clears every assignment that names the account. */
  method UnassignAccount(s: Tunnels.Store, account: string) returns (batch: seq<Change<Key, string>>)
    ensures Applied(s, batch) == UnassignedOver(s, Ids(s), account)
    ensures NoPutAfterDelete(batch)
  {
    var ids := AssignedTunnelIds(s);
    batch := UnassignEach(s, ids, account);
    forall k ensures !EndsPut(batch, k) { AppliedAt(map[], batch, k); }
  }

  ghost function Without(accounts: seq<Account>, id: string): seq<Account> {
    if accounts == [] then [] else
      (if accounts[0].id == id then [] else [accounts[0]]) + Without(accounts[1..], id)
  }

  lemma {:induction false} WithoutFinds(accounts: seq<Account>, id: string, other: string)
    ensures Find(Without(accounts, id), other) == if other == id then None else Find(accounts, other)
    ensures forall a :: a in Without(accounts, id) <==> a in accounts && a.id != id
  {
    if accounts == [] {
    } else {
      WithoutFinds(accounts[1..], id, other);
      var rest := Without(accounts[1..], id);
      assert Without(accounts, id)[|Without(accounts, id)| - |rest|..] == rest;
    }
  }

  /** The host and the store after an account has been removed and unassigned. */
  ghost function AfterRemoval(h: Host, id: string): Host {
    h.(accounts := Without(h.accounts, id))
  }

  lemma UnassignedAt(s: Tunnels.Store, account: string, id: string)
    requires id in AssignedIds(s)
    ensures var s' := UnassignedOver(s, Ids(s), account);
            AssignmentOf(s', id) == if Str(s, TunnelAccount(id), "") == account
                                    then AssignmentOf(s, id).(account := "") else AssignmentOf(s, id)
  {
    assert id in Elements(Ids(s));
    UnassignedOverAt(s, Ids(s), account, TunnelAccount(id));
    UnassignedOverAt(s, Ids(s), account, TunnelPlugin(id));
  }

  /** No tunnel runs with a removed account. */
  lemma RemovedAccountIsUnused(h: Host, s: Tunnels.Store, account: string, c: Config)
    requires c in Configs(AfterRemoval(h, account), UnassignedOver(s, Ids(s), account))
    ensures c.accountId != account
  {
    ConfigOnlyNarrows(AfterRemoval(h, account), UnassignedOver(s, Ids(s), account), c);
    WithoutFinds(h.accounts, account, "");
  }

  /** A tunnel that names another account runs as it did. */
  lemma OtherAccountsKeepTheirTunnels(h: Host, s: Tunnels.Store, account: string, id: string)
    requires ProperId(account) && id in AssignedIds(s)
    requires Trim(Str(s, TunnelAccount(id), "")) != "" && Trim(Str(s, TunnelAccount(id), "")) != account
    ensures ConfigAt(AfterRemoval(h, account), UnassignedOver(s, Ids(s), account), id) == ConfigAt(h, s, id)
  {
    UnassignedAt(s, account, id);
    WithoutFinds(h.accounts, account, Trim(Str(s, TunnelAccount(id), "")));
    ConfigByAccount(h, AssignmentOf(s, id), AfterRemoval(h, account),
                    AssignmentOf(UnassignedOver(s, Ids(s), account), id));
  }

  /**
   Removing an account is meant to stop the tunnels that used it. One of them keeps
   running, under somebody else's account, exactly when one account is left, the
   tunnel named the removed one with nothing around the name, and the one that is
   left is switched on and may serve it.
   */
  lemma TunnelOutlivesItsAccountExactly(h: Host, s: Tunnels.Store, account: string, id: string)
    requires ProperId(account) && id in AssignedIds(s)
    requires ConfigAt(h, s, id).Some? && ConfigAt(h, s, id).value.accountId == account
    requires Trim(Str(s, TunnelAccount(id), "")) == account
    ensures ConfigAt(AfterRemoval(h, account), UnassignedOver(s, Ids(s), account), id).Some?
            <==> && |Without(h.accounts, account)| == 1
                 && Str(s, TunnelAccount(id), "") == account
                 && Serves(h, AssignmentOf(s, id), Without(h.accounts, account)[0])
  {
    UnassignedAt(s, account, id);
    WithoutFinds(h.accounts, account, account);
    assert Trim("") == "";
    RunsExactly(AfterRemoval(h, account), AssignmentOf(UnassignedOver(s, Ids(s), account), id));
  }

  /** A tunnel that named no account used the only one, and stops with it. */
  lemma UnnamedTunnelStops(h: Host, s: Tunnels.Store, account: string, id: string)
    requires DistinctIds(h.accounts) && id in AssignedIds(s) && account != ""
    requires ConfigAt(h, s, id).Some? && ConfigAt(h, s, id).value.accountId == account
    requires Trim(Str(s, TunnelAccount(id), "")) == ""
    ensures ConfigAt(AfterRemoval(h, account), UnassignedOver(s, Ids(s), account), id) == None
  {
    UnassignedAt(s, account, id);
    WithoutFinds(h.accounts, account, account);
    RunsExactly(h, AssignmentOf(s, id));
    assert h.accounts[0].id == account;
    assert Trim("") == "";
    RunsExactly(AfterRemoval(h, account), AssignmentOf(UnassignedOver(s, Ids(s), account), id));
  }

  /** The failing input: of two accounts the tunnel's own is removed, and the tunnel goes on under the other. */
  lemma TunnelChangesHands(h: Host, a: Account, b: Account, s: Tunnels.Store, id: string)
    requires h.accounts == [a, b] && a.id != b.id && ProperId(a.id) && a.enabled && b.enabled && Readable(id)
    requires s == map[TunnelPlugin(id) := EVERYTHING, TunnelAccount(id) := a.id]
    ensures ConfigAt(h, s, id).Some? && ConfigAt(h, s, id).value.accountId == a.id
    ensures var after := ConfigAt(AfterRemoval(h, a.id), UnassignedOver(s, Ids(s), a.id), id);
            after.Some? && after.value.accountId == b.id
  {
    assert TunnelPlugin(id).id in AssignedIds(s);
    RunsExactly(h, AssignmentOf(s, id));
    assert Without([b], a.id) == [b] by { assert Without([], a.id) == []; }
    assert h.accounts[1..] == [b];
    assert Without(h.accounts, a.id) == [b];
    TunnelOutlivesItsAccountExactly(h, s, a.id, id);
    UnassignedAt(s, a.id, id);
    assert Trim("") == "";
    RunsExactly(AfterRemoval(h, a.id), AssignmentOf(UnassignedOver(s, Ids(s), a.id), id));
  }
}
