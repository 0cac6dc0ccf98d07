/** A subject's reach: which plugins, at which level. */
module Grants {
  import opened Wrappers
  import opened Text
  import opened Sorting
  import opened Levels

  /** Reaches every plugin. */
  const WILDCARD: string := "*"

  datatype Grant = Grant(plugin: string, level: Level)

  predicate Names(g: Grant, plugin: string) {
    g.plugin == WILDCARD || g.plugin == plugin
  }

  predicate Reaches(gs: seq<Grant>, plugin: string, level: Level) {
    plugin != "" && plugin != WILDCARD && exists g | g in gs :: Names(g, plugin) && g.level.Includes(level)
  }

  method ScanReaches(gs: seq<Grant>, plugin: string, level: Level) returns (r: bool)
    ensures r == Reaches(gs, plugin, level)
  {
    if plugin == "" || plugin == WILDCARD { return false; }
    for i := 0 to |gs|
      invariant forall g | g in gs[..i] :: !(Names(g, plugin) && g.level.Includes(level))
    {
      if Names(gs[i], plugin) && gs[i].level.Includes(level) { return true; }
    }
    assert gs[..|gs|] == gs;
    return false;
  }

  /** What one grant reaches: its plugin or, as the wildcard, every one, at its level and what that includes. */
  lemma GrantReaches(g: Grant, plugin: string, level: Level)
    ensures Reaches([g], plugin, level)
            <==> plugin !in {"", "*"} && g.plugin in {"*", plugin} && g.level.Includes(level)
  {
    assert g in [g];
  }

  /** `held` is named for the plugin, or is none, and nothing named for it ranks higher. */
  ghost predicate Highest(gs: seq<Grant>, plugin: string, held: Level) {
    && (forall g | g in gs && Names(g, plugin) :: g.level.Rank() <= held.Rank())
    && (held == Unheld || exists g | g in gs :: Names(g, plugin) && g.level == held)
  }

  function LevelFor(gs: seq<Grant>, plugin: string): (held: Level)
    ensures Highest(gs, plugin, held)
  {
    if gs == [] then Unheld else
      var n := |gs| - 1;
      var before := LevelFor(gs[..n], plugin);
      var held := if Names(gs[n], plugin) && gs[n].level.Rank() > before.Rank() then gs[n].level else before;
      assert forall g | g in gs :: g in gs[..n] || g == gs[n];
      held
  }

  method ScanLevelFor(gs: seq<Grant>, plugin: string) returns (held: Level)
    ensures held == LevelFor(gs, plugin)
  {
    held := Unheld;
    for i := 0 to |gs|
      invariant held == LevelFor(gs[..i], plugin)
    {
      assert gs[..i + 1][..i] == gs[..i];
      if Names(gs[i], plugin) && gs[i].level.Rank() > held.Rank() {
        held := gs[i].level;
      }
    }
    assert gs[..|gs|] == gs;
  }

  /**
   One grant at the highest level held reaches exactly what the list reached of
   that plugin, once the list reaches it at all.
   */
  lemma NarrowedReach(gs: seq<Grant>, plugin: string, other: string, level: Level)
    requires Reaches(gs, plugin, ReadLevel)
    ensures Reaches([Grant(plugin, LevelFor(gs, plugin))], other, level)
            <==> other == plugin && Reaches(gs, plugin, level)
  {
    var held := LevelFor(gs, plugin);
    var one := [Grant(plugin, held)];
    assert one[0] in one;
    var g :| g in gs && Names(g, plugin) && g.level.Includes(ReadLevel);
    if other == plugin && Reaches(one, plugin, level) {
      var h :| h in gs && Names(h, plugin) && h.level == held;
      assert h.level.Includes(level);
    }
  }

  /** A list that may be stored. */
  predicate Storable(gs: seq<Grant>) {
    forall g | g in gs :: Trim(g.plugin) != "" && g.level.Grantable()
  }

  // ---- Normalizing --------------------------------------------------------

  predicate Counts(g: Grant, name: string) {
    Trim(g.plugin) == name && name != "" && g.level.Grantable()
  }

  /** The rank of the highest level any counted grant names a plugin at. */
  ghost function BestRank(gs: seq<Grant>, name: string): (r: nat)
    ensures r <= 2
  {
    if exists g | g in gs :: Counts(g, name) && g.level == WriteLevel then 2
    else if exists g | g in gs :: Counts(g, name) && g.level == ReadLevel then 1
    else 0
  }

  function LevelOf(rank: nat): Level {
    if rank >= 2 then WriteLevel else ReadLevel
  }

  /** A name stays when some grant counts for it and the wildcard does not already cover it. */
  ghost predicate Stays(gs: seq<Grant>, name: string) {
    BestRank(gs, name) > 0 && (name == WILDCARD || BestRank(gs, WILDCARD) < BestRank(gs, name))
  }

  ghost function Entries(gs: seq<Grant>): set<Grant> {
    set g | g in gs && Stays(gs, Trim(g.plugin)) :: Grant(Trim(g.plugin), LevelOf(BestRank(gs, Trim(g.plugin))))
  }

  /** The wildcard first, then by name. */
  function OrderKey(g: Grant): string {
    if g.plugin == WILDCARD then "" else g.plugin
  }

  /** The order grants are listed in. */
  predicate Before(a: Grant, b: Grant) {
    if (a.plugin == WILDCARD) != (b.plugin == WILDCARD) then a.plugin == WILDCARD else Less(a.plugin, b.plugin)
  }

  lemma OrderKeyIsBefore(a: Grant, b: Grant)
    requires a.plugin != "" && b.plugin != ""
    ensures Before(a, b) <==> Less(OrderKey(a), OrderKey(b))
  {
  }

  lemma EntriesDistinct(gs: seq<Grant>)
    ensures DistinctKeys(OrderKey, Entries(gs))
    ensures forall g | g in Entries(gs) :: g.plugin != "" && g.level.Grantable() && Trimmed(g.plugin)
  {
    forall g | g in Entries(gs)
      ensures g.plugin != "" && Trimmed(g.plugin) && g.level == LevelOf(BestRank(gs, g.plugin))
    {
      EntryIsCounted(gs, g);
    }
  }

  lemma EntryIsCounted(gs: seq<Grant>, g: Grant)
    requires g in Entries(gs)
    ensures g.plugin != "" && Trimmed(g.plugin) && g.level == LevelOf(BestRank(gs, g.plugin))
  {
    var h :| h in gs && g == Grant(Trim(h.plugin), LevelOf(BestRank(gs, Trim(h.plugin))));
  }

  /** What `Normalize` returns, as a value. */
  ghost function NormalForm(gs: seq<Grant>): (r: seq<Grant>)
    ensures Sorted(OrderKey, r) && Elements(r) == Entries(gs)
  {
    EntriesDistinct(gs);
    Listed(OrderKey, Entries(gs))
  }

  lemma EntryAt(gs: seq<Grant>, g: Grant)
    ensures g in NormalForm(gs) <==> Stays(gs, g.plugin) && g.level == LevelOf(BestRank(gs, g.plugin))
  {
    assert g in NormalForm(gs) <==> g in Elements(NormalForm(gs));
    if Stays(gs, g.plugin) && g.level == LevelOf(BestRank(gs, g.plugin)) {
      var h :| h in gs && Counts(h, g.plugin);
      assert Grant(Trim(h.plugin), LevelOf(BestRank(gs, Trim(h.plugin)))) in Entries(gs);
    }
  }

  /** The rank of a grantable level. */
  ghost predicate BestIs(best: map<string, Level>, gs: seq<Grant>) {
    forall name :: if name in best
                   then best[name].Grantable() && best[name].Rank() == BestRank(gs, name)
                   else BestRank(gs, name) == 0
  }

  lemma BestRankGrows(gs: seq<Grant>, g: Grant, name: string)
    ensures BestRank(gs + [g], name)
            == if Counts(g, name) && g.level.Rank() > BestRank(gs, name) then g.level.Rank() else BestRank(gs, name)
  {
    var all := gs + [g];
    assert forall h :: h in all <==> h in gs || h == g;
  }

  /** The highest level named for each plugin, trimmed, over the grants that can be stored. */
  method CollectBest(gs: seq<Grant>) returns (best: map<string, Level>)
    ensures BestIs(best, gs)
  {
    best := map[];
    for i := 0 to |gs|
      invariant BestIs(best, gs[..i])
    {
      var g := gs[i];
      assert gs[..i + 1] == gs[..i] + [g];
      forall name { BestRankGrows(gs[..i], g, name); }
      var name := Trim(g.plugin);
      if name != "" && g.level.Grantable() {
        if name !in best || g.level.Rank() > best[name].Rank() {
          best := best[name := g.level];
        }
      }
    }
    assert gs[..|gs|] == gs;
  }

  predicate Uncovered(best: map<string, Level>, name: string) {
    name in best && (name == WILDCARD || !(WILDCARD in best && best[WILDCARD].Includes(best[name])))
  }

  lemma UncoveredIsEntry(best: map<string, Level>, gs: seq<Grant>, g: Grant)
    requires BestIs(best, gs)
    ensures g in NormalForm(gs) <==> Uncovered(best, g.plugin) && g.level == best[g.plugin]
  {
    EntryAt(gs, g);
    assert WILDCARD in best ==> best[WILDCARD].Rank() == BestRank(gs, WILDCARD);
  }

  /** What is left once the wildcard has absorbed the names it covers, in any order. */
  method DropCovered(best: map<string, Level>) returns (kept: seq<Grant>)
    ensures forall g :: g in kept <==> Uncovered(best, g.plugin) && g.level == best[g.plugin]
    ensures forall i, j | 0 <= i < j < |kept| :: kept[i].plugin != kept[j].plugin
  {
    kept := [];
    var names := best.Keys;
    while names != {}
      invariant names <= best.Keys
      invariant forall g :: g in kept <==> g.plugin !in names && Uncovered(best, g.plugin) && g.level == best[g.plugin]
      invariant forall i, j | 0 <= i < j < |kept| :: kept[i].plugin != kept[j].plugin
      decreases names
    {
      var name :| name in names;
      names := names - {name};
      if Uncovered(best, name) {
        forall i | 0 <= i < |kept| ensures kept[i].plugin != name { assert kept[i] in kept; }
        kept := kept + [Grant(name, best[name])];
      }
    }
  }

  /** The one list of the names that stay, each before the next. */
  method Normalize(gs: seq<Grant>) returns (out: seq<Grant>)
    ensures out == NormalForm(gs)
    ensures forall i, j | 0 <= i < j < |out| :: Before(out[i], out[j])
  {
    var best := CollectBest(gs);
    var kept := DropCovered(best);
    forall g ensures g in kept <==> g in NormalForm(gs) { UncoveredIsEntry(best, gs, g); }
    NormalFormClean(gs);
    forall i, j | 0 <= i < j < |kept| ensures OrderKey(kept[i]) != OrderKey(kept[j]) {
      assert kept[i] in kept && kept[j] in kept;
    }
    out := SortByKey(OrderKey, kept);
    assert Elements(out) == Elements(NormalForm(gs));
    SortedUnique(OrderKey, out, NormalForm(gs));
    forall i, j | 0 <= i < j < |out| ensures Before(out[i], out[j]) {
      assert out[i] in out && out[j] in out;
      OrderKeyIsBefore(out[i], out[j]);
    }
  }

  // ---- What normalizing means ---------------------------------------------

  /** The reach of a list once its names are trimmed and its unusable grants dropped. */
  ghost predicate CleanReach(gs: seq<Grant>, plugin: string, level: Level) {
    plugin != "" && plugin != WILDCARD &&
    exists g | g in gs :: (Counts(g, WILDCARD) || Counts(g, plugin)) && g.level.Includes(level)
  }

  /** A name's reach is decided by the better of its own rank and the wildcard's. */
  lemma CleanReachByRank(gs: seq<Grant>, plugin: string, level: Level)
    requires plugin != "" && plugin != WILDCARD
    ensures var rank := if BestRank(gs, plugin) > BestRank(gs, WILDCARD) then BestRank(gs, plugin)
                        else BestRank(gs, WILDCARD);
            CleanReach(gs, plugin, level) <==> rank > 0 && LevelOf(rank).Includes(level)
  {
  }

  /** For every list, the normal form reaches what the cleaned list reaches. */
  lemma NormalFormReach(gs: seq<Grant>, plugin: string, level: Level)
    ensures Reaches(NormalForm(gs), plugin, level) <==> CleanReach(gs, plugin, level)
  {
    if plugin != "" && plugin != WILDCARD {
      CleanReachByRank(gs, plugin, level);
      if Reaches(NormalForm(gs), plugin, level) { NormalReachIsRanked(gs, plugin, level); }
      EntryAt(gs, Grant(plugin, LevelOf(BestRank(gs, plugin))));
      EntryAt(gs, Grant(WILDCARD, LevelOf(BestRank(gs, WILDCARD))));
    }
  }

  /** An entry that reaches a plugin has the rank of the plugin's own name or of the wildcard. */
  lemma NormalReachIsRanked(gs: seq<Grant>, plugin: string, level: Level)
    requires Reaches(NormalForm(gs), plugin, level)
    ensures (BestRank(gs, plugin) > 0 && LevelOf(BestRank(gs, plugin)).Includes(level))
            || (BestRank(gs, WILDCARD) > 0 && LevelOf(BestRank(gs, WILDCARD)).Includes(level))
  {
    var g :| g in NormalForm(gs) && Names(g, plugin) && g.level.Includes(level);
    EntryAt(gs, g);
  }

  /** A stored list whose names carry no surrounding space. */
  predicate Clean(gs: seq<Grant>) {
    Storable(gs) && forall g | g in gs :: Trimmed(g.plugin)
  }

  lemma CleanListReach(gs: seq<Grant>, plugin: string, level: Level)
    requires Clean(gs)
    ensures CleanReach(gs, plugin, level) <==> Reaches(gs, plugin, level)
  {
    forall g | g in gs ensures Trim(g.plugin) == g.plugin { TrimFixes(g.plugin); }
  }

  /** Normalizing a clean list changes nothing about what it reaches. */
  lemma NormalizePreservesReach(gs: seq<Grant>, plugin: string, level: Level)
    requires Clean(gs)
    ensures Reaches(NormalForm(gs), plugin, level) <==> Reaches(gs, plugin, level)
  {
    NormalFormReach(gs, plugin, level);
    CleanListReach(gs, plugin, level);
  }

  lemma NormalFormClean(gs: seq<Grant>)
    ensures Clean(NormalForm(gs))
  {
    EntriesDistinct(gs);
    forall g | g in NormalForm(gs)
      ensures Trimmed(g.plugin) && Trim(g.plugin) != "" && g.level.Grantable()
    {
      assert g in Elements(NormalForm(gs));
      TrimFixes(g.plugin);
    }
  }

  // ---- A canonical form ---------------------------------------------------

  ghost predicate SameReach(a: seq<Grant>, b: seq<Grant>) {
    forall plugin, level :: Reaches(a, plugin, level) <==> Reaches(b, plugin, level)
  }

  /** A name no grant in the list mentions. */
  function FreshName(gs: seq<Grant>): (name: string)
    ensures name != "" && name[0] == 'x'
    ensures forall g | g in gs :: |g.plugin| < |name|
  {
    if gs == [] then "x" else
      var rest := FreshName(gs[1..]);
      assert forall g | g in gs :: g == gs[0] || g in gs[1..];
      if |gs[0].plugin| < |rest| then rest else rest + gs[0].plugin
  }

  /** How far a list reaches a plugin: 0 not at all, 1 to read, 2 to write. */
  ghost function ReachRank(gs: seq<Grant>, plugin: string): nat {
    if Reaches(gs, plugin, WriteLevel) then 2 else if Reaches(gs, plugin, ReadLevel) then 1 else 0
  }

  /** The wildcard's rank shows on a name nothing mentions. */
  lemma WildcardRank(gs: seq<Grant>, unseen: string)
    requires unseen != "" && unseen != WILDCARD
    requires forall g | g in NormalForm(gs) :: g.plugin != unseen
    ensures BestRank(gs, WILDCARD) == ReachRank(NormalForm(gs), unseen)
  {
    RankOfReach(gs, unseen);
    EntryAt(gs, Grant(unseen, LevelOf(BestRank(gs, unseen))));
  }

  lemma RankOfReach(gs: seq<Grant>, plugin: string)
    requires plugin != "" && plugin != WILDCARD
    ensures ReachRank(NormalForm(gs), plugin)
            == if BestRank(gs, plugin) > BestRank(gs, WILDCARD) then BestRank(gs, plugin) else BestRank(gs, WILDCARD)
  {
    NormalFormReach(gs, plugin, WriteLevel);
    NormalFormReach(gs, plugin, ReadLevel);
    CleanReachByRank(gs, plugin, WriteLevel);
    CleanReachByRank(gs, plugin, ReadLevel);
  }

  lemma WildcardRanksAgree(a: seq<Grant>, b: seq<Grant>)
    requires SameReach(NormalForm(a), NormalForm(b))
    ensures BestRank(a, WILDCARD) == BestRank(b, WILDCARD)
  {
    var both := NormalForm(a) + NormalForm(b);
    var unseen := FreshName(both);
    assert forall h | h in NormalForm(a) || h in NormalForm(b) :: h in both;
    FreshIsNamed(both);
    WildcardRank(a, unseen);
    WildcardRank(b, unseen);
  }

  /** What a normal form holds is read off its reach. */
  lemma EntriesFromReach(a: seq<Grant>, b: seq<Grant>, g: Grant)
    requires SameReach(NormalForm(a), NormalForm(b)) && g in NormalForm(a)
    ensures g in NormalForm(b)
  {
    WildcardRanksAgree(a, b);
    EntryAt(a, g);
    EntryAt(b, g);
    if g.plugin != WILDCARD {
      NormalFormClean(a);
      assert g.plugin != "";
      RankOfReach(a, g.plugin);
      RankOfReach(b, g.plugin);
    }
  }

  lemma FreshIsNamed(gs: seq<Grant>)
    ensures FreshName(gs) != WILDCARD
  {
    assert FreshName(gs)[0] == 'x' && WILDCARD[0] == '*';
  }

  /** Two lists have the same normal form exactly when those reach the same plugins at the same levels. */
  lemma NormalFormCanonical(a: seq<Grant>, b: seq<Grant>)
    ensures NormalForm(a) == NormalForm(b) <==> SameReach(NormalForm(a), NormalForm(b))
  {
    if SameReach(NormalForm(a), NormalForm(b)) {
      forall g ensures g in NormalForm(a) <==> g in NormalForm(b) {
        if g in NormalForm(a) { EntriesFromReach(a, b, g); }
        if g in NormalForm(b) { EntriesFromReach(b, a, g); }
      }
      assert Elements(NormalForm(a)) == Elements(NormalForm(b));
      SortedUnique(OrderKey, NormalForm(a), NormalForm(b));
    }
  }

  /** `Equal` on clean lists is having the same reach. */
  lemma EqualIsSameReach(a: seq<Grant>, b: seq<Grant>)
    requires Clean(a) && Clean(b)
    ensures NormalForm(a) == NormalForm(b) <==> SameReach(a, b)
  {
    NormalFormCanonical(a, b);
    forall plugin, level
      ensures Reaches(NormalForm(a), plugin, level) <==> Reaches(a, plugin, level)
      ensures Reaches(NormalForm(b), plugin, level) <==> Reaches(b, plugin, level)
    {
      NormalizePreservesReach(a, plugin, level);
      NormalizePreservesReach(b, plugin, level);
    }
  }

  /** Normalizing twice is normalizing once, for every list. */
  lemma NormalFormIdempotent(gs: seq<Grant>)
    ensures NormalForm(NormalForm(gs)) == NormalForm(gs)
  {
    var n := NormalForm(gs);
    NormalFormClean(gs);
    forall plugin, level ensures Reaches(NormalForm(n), plugin, level) <==> Reaches(n, plugin, level) {
      NormalizePreservesReach(n, plugin, level);
    }
    NormalFormCanonical(n, gs);
  }

  // ---- When normalizing changes the reach ---------------------------------

  /** A wildcard written exactly so, at a level that includes `level`. */
  predicate WildcardCovers(gs: seq<Grant>, level: Level) {
    exists w | w in gs :: w.plugin == WILDCARD && w.level.Includes(level)
  }

  /** Every name with surrounding space is beside a wildcard that already covers it. */
  predicate PaddingIsCovered(gs: seq<Grant>) {
    forall g | g in gs :: Trimmed(g.plugin) || WildcardCovers(gs, g.level)
  }

  /**
   `Normalize` trims and `Reaches` does not, so on a list with a padded name the
   two disagree. For lists that may be stored they agree exactly when every padded
   name is beside a wildcard that covers it.
   */
  lemma NormalizePreservesReachExactly(gs: seq<Grant>)
    requires Storable(gs)
    ensures SameReach(NormalForm(gs), gs) <==> PaddingIsCovered(gs)
  {
    if PaddingIsCovered(gs) {
      forall plugin, level ensures Reaches(NormalForm(gs), plugin, level) <==> Reaches(gs, plugin, level) {
        NormalFormReach(gs, plugin, level);
        CoveredReach(gs, plugin, level);
      }
    } else {
      var g :| g in gs && !Trimmed(g.plugin) && !WildcardCovers(gs, g.level);
      PaddedNameDisagrees(gs, g);
    }
  }

  /** A grant with nothing to trim means the same before and after cleaning. */
  lemma TrimmedGrantReaches(gs: seq<Grant>, g: Grant, plugin: string, level: Level)
    requires plugin != "" && plugin != WILDCARD
    requires g in gs && Trim(g.plugin) == g.plugin && g.plugin != "" && g.level.Grantable() && g.level.Includes(level)
    requires Names(g, plugin) || Counts(g, WILDCARD) || Counts(g, plugin)
    ensures CleanReach(gs, plugin, level) && Reaches(gs, plugin, level)
  {
  }

  lemma IncludesTransitive(a: Level, b: Level, c: Level)
    requires b.Valid() && a.Includes(b) && b.Includes(c)
    ensures a.Includes(c)
  {
    RankDecides(a, b);
  }

  lemma CoveredGrant(gs: seq<Grant>, g: Grant, plugin: string, level: Level)
    requires Storable(gs) && plugin != "" && plugin != WILDCARD
    requires g in gs && g.level.Includes(level) && (Trimmed(g.plugin) || WildcardCovers(gs, g.level))
    requires Names(g, plugin) || Counts(g, WILDCARD) || Counts(g, plugin)
    ensures CleanReach(gs, plugin, level) && Reaches(gs, plugin, level)
  {
    TrimFixes(g.plugin);
    if Trimmed(g.plugin) {
      TrimmedGrantReaches(gs, g, plugin, level);
    } else {
      var w :| w in gs && w.plugin == WILDCARD && w.level.Includes(g.level);
      TrimFixes(w.plugin);
      IncludesTransitive(w.level, g.level, level);
      TrimmedGrantReaches(gs, w, plugin, level);
    }
  }

  lemma CoveredReach(gs: seq<Grant>, plugin: string, level: Level)
    requires Storable(gs) && PaddingIsCovered(gs)
    ensures CleanReach(gs, plugin, level) <==> Reaches(gs, plugin, level)
  {
    if CleanReach(gs, plugin, level) {
      var g :| g in gs && (Counts(g, WILDCARD) || Counts(g, plugin)) && g.level.Includes(level);
      CoveredGrant(gs, g, plugin, level);
    }
    if Reaches(gs, plugin, level) {
      var g :| g in gs && Names(g, plugin) && g.level.Includes(level);
      CoveredGrant(gs, g, plugin, level);
    }
  }

  lemma PaddedNameDisagrees(gs: seq<Grant>, g: Grant)
    requires Storable(gs) && g in gs && !Trimmed(g.plugin) && !WildcardCovers(gs, g.level)
    ensures !SameReach(NormalForm(gs), gs)
  {
    assert Reaches(gs, g.plugin, g.level);
    NormalFormReach(gs, g.plugin, g.level);
    if CleanReach(gs, g.plugin, g.level) {
      var h :| h in gs && (Counts(h, WILDCARD) || Counts(h, g.plugin)) && h.level.Includes(g.level);
      var unseen := FreshName(gs);
      FreshIsNamed(gs);
      NormalFormReach(gs, unseen, g.level);
      assert Counts(h, WILDCARD);
      assert CleanReach(gs, unseen, g.level) && !Reaches(gs, unseen, g.level);
    }
  }

  /** A padded wildcard names one plugin that cannot exist, and normalizes to all of them. */
  lemma PaddedWildcardWidens(plugin: string)
    requires plugin != "" && plugin != WILDCARD && plugin != " *"
    ensures var gs := [Grant(" *", WriteLevel)];
            Storable(gs) && !Reaches(gs, plugin, ReadLevel) && Reaches(NormalForm(gs), plugin, WriteLevel)
  {
    var gs := [Grant(" *", WriteLevel)];
    var g := gs[0];
    assert TrimLeft(" *") == TrimLeft("*") == "*" by { assert " *"[1..] == "*"; }
    assert Counts(g, WILDCARD) && g in gs;
    NormalFormReach(gs, plugin, WriteLevel);
  }

  // ---- Unions -------------------------------------------------------------

  function Flatten(lists: seq<seq<Grant>>): seq<Grant> {
    if lists == [] then [] else Flatten(lists[..|lists| - 1]) + lists[|lists| - 1]
  }

  /** Several lists as one. */
  method UnionGrants(lists: seq<seq<Grant>>) returns (out: seq<Grant>)
    ensures out == NormalForm(Flatten(lists))
  {
    var all: seq<Grant> := [];
    for i := 0 to |lists|
      invariant all == Flatten(lists[..i])
    {
      assert lists[..i + 1][..i] == lists[..i];
      all := all + lists[i];
    }
    assert lists[..|lists|] == lists;
    out := Normalize(all);
  }

  lemma {:induction false} FlattenHolds(lists: seq<seq<Grant>>, g: Grant)
    ensures g in Flatten(lists) <==> exists i | 0 <= i < |lists| :: g in lists[i]
  {
    if lists == [] {
    } else {
      var n := |lists| - 1;
      FlattenHolds(lists[..n], g);
      if g in Flatten(lists[..n]) {
        var i :| 0 <= i < n && g in lists[..n][i];
        assert g in lists[i];
      }
    }
  }

  /** The union reaches a plugin at a level exactly when one of the lists does. */
  lemma UnionReach(lists: seq<seq<Grant>>, plugin: string, level: Level)
    requires forall l | l in lists :: Clean(l)
    ensures Reaches(NormalForm(Flatten(lists)), plugin, level)
            <==> exists i | 0 <= i < |lists| :: Reaches(lists[i], plugin, level)
  {
    var all := Flatten(lists);
    forall g | g in all ensures Trim(g.plugin) != "" && g.level.Grantable() && Trimmed(g.plugin) {
      FlattenHolds(lists, g);
      var i :| 0 <= i < |lists| && g in lists[i];
      assert Clean(lists[i]);
    }
    NormalizePreservesReach(all, plugin, level);
    if Reaches(all, plugin, level) {
      var g :| g in all && Names(g, plugin) && g.level.Includes(level);
      FlattenHolds(lists, g);
    }
    if i :| 0 <= i < |lists| && Reaches(lists[i], plugin, level) {
      var g :| g in lists[i] && Names(g, plugin) && g.level.Includes(level);
      FlattenHolds(lists, g);
    }
  }

  /** Only which grants are present matters, not their order or number. */
  lemma NormalFormOfElements(a: seq<Grant>, b: seq<Grant>)
    requires Elements(a) == Elements(b)
    ensures NormalForm(a) == NormalForm(b)
  {
    assert forall g :: g in a <==> g in Elements(a);
    assert forall g :: g in b <==> g in Elements(b);
    forall plugin, level
      ensures Reaches(NormalForm(a), plugin, level) <==> Reaches(NormalForm(b), plugin, level)
    {
      NormalFormReach(a, plugin, level);
      NormalFormReach(b, plugin, level);
    }
    NormalFormCanonical(a, b);
  }

  /** Lists may be united in any order. */
  lemma UnionCommutes(xs: seq<seq<Grant>>, ys: seq<seq<Grant>>)
    requires multiset(xs) == multiset(ys)
    ensures NormalForm(Flatten(xs)) == NormalForm(Flatten(ys))
  {
    forall g ensures g in Flatten(xs) <==> g in Flatten(ys) {
      FlattenHolds(xs, g);
      FlattenHolds(ys, g);
      if i :| 0 <= i < |xs| && g in xs[i] {
        assert xs[i] in multiset(ys);
      }
      if i :| 0 <= i < |ys| && g in ys[i] {
        assert ys[i] in multiset(xs);
      }
    }
    assert Elements(Flatten(xs)) == Elements(Flatten(ys));
    NormalFormOfElements(Flatten(xs), Flatten(ys));
  }

  /** Lists may be united in any grouping, for every list. */
  lemma UnionAssociates(a: seq<Grant>, b: seq<Grant>)
    ensures NormalForm(NormalForm(a) + NormalForm(b)) == NormalForm(a + b)
  {
    var na, nb := NormalForm(a), NormalForm(b);
    NormalFormClean(a);
    NormalFormClean(b);
    assert Clean(na + nb);
    forall plugin, level
      ensures Reaches(NormalForm(na + nb), plugin, level) <==> Reaches(NormalForm(a + b), plugin, level)
    {
      NormalizePreservesReach(na + nb, plugin, level);
      NormalFormReach(a, plugin, level);
      NormalFormReach(b, plugin, level);
      NormalFormReach(a + b, plugin, level);
      ReachOfConcat(na, nb, plugin, level);
      CleanReachOfConcat(a, b, plugin, level);
    }
    NormalFormCanonical(na + nb, a + b);
  }

  lemma ReachOfConcat(a: seq<Grant>, b: seq<Grant>, plugin: string, level: Level)
    ensures Reaches(a + b, plugin, level) <==> Reaches(a, plugin, level) || Reaches(b, plugin, level)
  {
    assert forall g :: g in a + b <==> g in a || g in b;
  }

  lemma CleanReachOfConcat(a: seq<Grant>, b: seq<Grant>, plugin: string, level: Level)
    ensures CleanReach(a + b, plugin, level) <==> CleanReach(a, plugin, level) || CleanReach(b, plugin, level)
  {
    assert forall g :: g in a + b <==> g in a || g in b;
  }

  /** The union is the least list that reaches what each of its parts does. */
  lemma UnionIsLeast(lists: seq<seq<Grant>>, upper: seq<Grant>)
    requires forall l | l in lists :: Clean(l)
    requires forall i, plugin, level | 0 <= i < |lists| && Reaches(lists[i], plugin, level) ::
               Reaches(upper, plugin, level)
    ensures forall plugin, level | Reaches(NormalForm(Flatten(lists)), plugin, level) ::
              Reaches(upper, plugin, level)
  {
    forall plugin, level | Reaches(NormalForm(Flatten(lists)), plugin, level)
      ensures Reaches(upper, plugin, level)
    {
      UnionReach(lists, plugin, level);
    }
  }

  // ---- Storage ------------------------------------------------------------

  /** A text encoding of grant lists, with a decoder that may refuse. */
  datatype Codec = Codec(encode: seq<Grant> -> string, decode: string -> Option<seq<Grant>>)

  ghost predicate Faithful(codec: Codec) {
    forall gs :: codec.decode(codec.encode(gs)) == Some(gs)
  }

  method EncodeGrants(codec: Codec, gs: seq<Grant>) returns (text: string)
    ensures text == codec.encode(NormalForm(gs))
  {
    var n := Normalize(gs);
    text := codec.encode(n);
  }

  /** Reads a stored list: normal whatever was stored, reaching what was, and nothing if it cannot be read. */
  method DecodeGrants(codec: Codec, text: string) returns (gs: seq<Grant>)
    ensures NormalForm(gs) == gs
    ensures forall plugin, level ::
              Reaches(gs, plugin, level)
              <==> codec.decode(text).Some? && CleanReach(codec.decode(text).value, plugin, level)
  {
    match codec.decode(text)
    case None =>
      gs := [];
      assert Entries([]) == {};
      if NormalForm([]) != [] { HeadIsElement(NormalForm([])); }
    case Some(raw) =>
      gs := Normalize(raw);
      NormalFormIdempotent(raw);
      forall plugin, level ensures Reaches(gs, plugin, level) <==> CleanReach(raw, plugin, level) {
        NormalFormReach(raw, plugin, level);
      }
  }

  /** Storing and reading back gives the normal form, and storing that gives the same text. */
  method StoreAndLoad(codec: Codec, gs: seq<Grant>) returns (back: seq<Grant>)
    requires Faithful(codec)
    ensures back == NormalForm(gs)
    ensures codec.encode(NormalForm(back)) == codec.encode(NormalForm(gs))
  {
    var text := EncodeGrants(codec, gs);
    back := DecodeGrants(codec, text);
    NormalFormIdempotent(gs);
    forall plugin, level
      ensures Reaches(NormalForm(back), plugin, level) <==> Reaches(NormalForm(gs), plugin, level)
    {
      NormalFormReach(NormalForm(gs), plugin, level);
    }
    NormalFormCanonical(back, gs);
  }
}
