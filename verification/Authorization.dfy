/** Who may do what: permissions by area, principals, and the decisions made from them. */
module Authorization {
  import opened Wrappers
  import opened Text
  import opened Levels
  import opened Grants

  // ---- Permissions --------------------------------------------------------

  datatype Area =
    | Approvals | Policies | Plugins | Tunnels | Settings | Access | History | System
    | UnknownArea(word: string)
  {
    predicate Valid() {
      !UnknownArea?
    }

    /** A pair of levels, the lower before the higher; deciding takes the place of writing for approvals. */
    function Levels(): seq<Level> {
      if this == Approvals then [ReadLevel, DecideLevel] else [ReadLevel, WriteLevel]
    }
  }

  /** The areas as the dashboard shows them. */
  const AREAS: seq<Area> := [Approvals, Policies, Plugins, Tunnels, Settings, Access, History, System]

  /** `area:level`, the permission everybody signed in holds, or a word that is neither. */
  datatype Permission = SignedIn | Named(area: Area, level: Level) | Malformed(word: string) {
    /** It names an area and a level that area can be held at. */
    predicate Splits() {
      Named? && area.Valid() && level.Valid() && level in area.Levels()
    }
  }

  type Permissions = map<Area, Level>

  /** A Go map read: an absent area is at the empty level. */
  function At(ps: Permissions, a: Area): Level {
    if a in ps then ps[a] else UnknownLevel("")
  }

  predicate Holds(ps: Permissions, p: Permission) {
    p == SignedIn || (p.Splits() && At(ps, p.area).Includes(p.level))
  }

  /** Area permissions in display order. */
  function InOrder(areas: seq<Area>): seq<Permission> {
    if areas == [] then [] else
      var a := areas[|areas| - 1];
      InOrder(areas[..|areas| - 1]) + [Named(a, a.Levels()[0]), Named(a, a.Levels()[1])]
  }

  function Satisfied(ps: Permissions, perms: seq<Permission>): seq<Permission> {
    if perms == [] then [] else
      Satisfied(ps, perms[..|perms| - 1])
      + (if Holds(ps, perms[|perms| - 1]) then [perms[|perms| - 1]] else [])
  }

  lemma {:induction false} SatisfiedHolds(ps: Permissions, perms: seq<Permission>, p: Permission)
    ensures p in Satisfied(ps, perms) <==> p in perms && Holds(ps, p)
  {
    if perms == [] {
    } else {
      SatisfiedHolds(ps, perms[..|perms| - 1], p);
      assert perms == perms[..|perms| - 1] + [perms[|perms| - 1]];
    }
  }

  lemma SatisfiedTwo(ps: Permissions, perms: seq<Permission>, p: Permission, q: Permission)
    ensures Satisfied(ps, perms + [p, q])
            == Satisfied(ps, perms) + (if Holds(ps, p) then [p] else []) + (if Holds(ps, q) then [q] else [])
  {
    assert (perms + [p, q])[..|perms| + 1] == perms + [p];
    assert (perms + [p])[..|perms|] == perms;
  }

  lemma ListStep(ps: Permissions, areas: seq<Area>, i: nat)
    requires i < |areas| && areas[i].Valid()
    ensures var a := areas[i];
            var held, first, second := At(ps, a), a.Levels()[0], a.Levels()[1];
            Satisfied(ps, InOrder(areas[..i + 1]))
            == Satisfied(ps, InOrder(areas[..i])) + (if held.Includes(first) then [Named(a, first)] else [])
               + (if held.Includes(second) then [Named(a, second)] else [])
  {
    var a := areas[i];
    assert areas[..i + 1][..i] == areas[..i];
    SatisfiedTwo(ps, InOrder(areas[..i]), Named(a, a.Levels()[0]), Named(a, a.Levels()[1]));
  }

  /** Every permission the set satisfies, in the order of the areas. */
  method ListOver(ps: Permissions, areas: seq<Area>) returns (out: seq<Permission>)
    requires forall a | a in areas :: a.Valid()
    ensures out == Satisfied(ps, InOrder(areas))
  {
    out := [];
    for i := 0 to |areas|
      invariant out == Satisfied(ps, InOrder(areas[..i]))
    {
      var a := areas[i];
      var held, levels := At(ps, a), a.Levels();
      ListStep(ps, areas, i);
      if held.Includes(levels[0]) { out := out + [Named(a, levels[0])]; }
      if held.Includes(levels[1]) { out := out + [Named(a, levels[1])]; }
    }
    assert areas[..|areas|] == areas;
  }

  method ListPermissions(ps: Permissions) returns (out: seq<Permission>)
    ensures out == Satisfied(ps, InOrder(AREAS))
  {
    out := ListOver(ps, AREAS);
  }

  lemma InOrderIsAll(p: Permission)
    ensures p in InOrder(AREAS) <==> p.Splits()
  {
    assert InOrder(AREAS) == InOrder(AREAS[..7]) + [Named(System, ReadLevel), Named(System, WriteLevel)];
    InOrderHolds(AREAS, p);
  }

  /** The order permissions are listed in: area by area, each area's lower level first. */
  lemma {:induction false} InOrderAt(areas: seq<Area>, k: nat)
    requires k < |areas|
    ensures |InOrder(areas)| == 2 * |areas|
    ensures InOrder(areas)[2 * k] == Named(areas[k], ReadLevel)
    ensures InOrder(areas)[2 * k + 1] == Named(areas[k], if areas[k] == Approvals then DecideLevel else WriteLevel)
  {
    var n := |areas| - 1;
    if n == 0 {
    } else {
      InOrderAt(areas[..n], if k < n then k else 0);
    }
  }

  /** The areas, in the order they are shown. */
  lemma DisplayOrder()
    ensures AREAS == [Approvals, Policies, Plugins, Tunnels, Settings, Access, History, System]
    ensures |InOrder(AREAS)| == 16
  {
    InOrderAt(AREAS, 0);
  }

  lemma {:induction false} InOrderHolds(areas: seq<Area>, p: Permission)
    ensures p in InOrder(areas) <==> p.Named? && p.area in areas && p.level in p.area.Levels()
  {
    if areas == [] {
    } else {
      var n := |areas| - 1;
      InOrderHolds(areas[..n], p);
      OneArea(areas[n], p);
      assert areas == areas[..n] + [areas[n]];
    }
  }

  /** The two permissions of one area. */
  lemma OneArea(a: Area, p: Permission)
    ensures p in [Named(a, a.Levels()[0]), Named(a, a.Levels()[1])]
            <==> p.Named? && p.area == a && p.level in a.Levels()
  {
  }

  /** What a set satisfies, entry by entry: being signed in, always; a level of an area, by the area's own entry. */
  lemma HoldsExactly(ps: Permissions, p: Permission)
    ensures Holds(ps, p)
            <==> || p == SignedIn
                 || (p.Named? && p.area in ps && !p.area.UnknownArea?
                     && (match p.level
                         case ReadLevel => ps[p.area] in {ReadLevel, WriteLevel, DecideLevel}
                         case WriteLevel => p.area != Approvals && ps[p.area] in {WriteLevel, DecideLevel}
                         case DecideLevel => p.area == Approvals && ps[p.area] in {WriteLevel, DecideLevel}
                         case _ => false))
  {
  }

  /** Two sets laid together, area by area. */
  ghost function Merged(ps: Permissions, other: Permissions): Permissions {
    map a | a in ps.Keys + (set b | b in other && other[b].Rank() > At(ps, b).Rank()) ::
      if a in other && other[a].Rank() > At(ps, a).Rank() then other[a] else ps[a]
  }

  lemma MergedGrows(ps: Permissions, part: Permissions, a: Area, l: Level)
    requires a !in part
    ensures Merged(ps, part[a := l])
            == if l.Rank() > At(Merged(ps, part), a).Rank() then Merged(ps, part)[a := l] else Merged(ps, part)
  {
    assert At(Merged(ps, part), a) == At(ps, a);
  }

  method Merge(ps: Permissions, other: Permissions) returns (out: Permissions)
    ensures out == Merged(ps, other)
  {
    out := ps;
    var areas := other.Keys;
    ghost var done: Permissions := map[];
    assert Merged(ps, done) == ps;
    while areas != {}
      invariant areas <= other.Keys
      invariant done == map a | a in other && a !in areas :: other[a]
      invariant out == Merged(ps, done)
      decreases areas
    {
      var a :| a in areas;
      areas := areas - {a};
      MergedGrows(ps, done, a, other[a]);
      done := done[a := other[a]];
      if other[a].Rank() > At(out, a).Rank() {
        out := out[a := other[a]];
      }
    }
    assert done == other;
  }

  /** Merging grants exactly what either side granted. */
  lemma MergeHolds(ps: Permissions, other: Permissions, p: Permission)
    ensures Holds(Merged(ps, other), p) <==> Holds(ps, p) || Holds(other, p)
  {
  }

  predicate Holdable(a: Area, l: Level) {
    a.Valid() && l.Valid() && l in a.Levels()
  }

  ghost function Normal(ps: Permissions): Permissions {
    map a | a in ps && Holdable(a, ps[a]) :: ps[a]
  }

  method NormalizePermissions(ps: Permissions) returns (out: Permissions)
    ensures out == Normal(ps)
  {
    out := map[];
    var areas := ps.Keys;
    while areas != {}
      invariant areas <= ps.Keys
      invariant out == map a | a in ps && a !in areas && Holdable(a, ps[a]) :: ps[a]
      decreases areas
    {
      var a :| a in areas;
      areas := areas - {a};
      if Holdable(a, ps[a]) {
        out := out[a := ps[a]];
      }
    }
  }

  /** What `Validate` accepts: known areas, each at none or at a level it can be held at. */
  predicate ValidPermissions(ps: Permissions) {
    forall a | a in ps :: a.Valid() && (ps[a] == Unheld || Holdable(a, ps[a]))
  }

  /** A known area stands at a level that counts but that it cannot be held at. */
  ghost predicate Misplaced(ps: Permissions, a: Area) {
    a in ps && a.Valid() && ps[a].Rank() > 0 && !Holdable(a, ps[a])
  }

  ghost predicate SameHolds(a: Permissions, b: Permissions) {
    forall p :: Holds(a, p) <==> Holds(b, p)
  }

  /**
   Normalizing keeps what a set satisfies exactly when no known area stands at a
   level it cannot be held at; such an entry satisfies checks until it is dropped.
   */
  lemma NormalKeepsHoldsExactly(ps: Permissions)
    ensures SameHolds(Normal(ps), ps) <==> forall a :: !Misplaced(ps, a)
  {
    forall a | Misplaced(ps, a) ensures !SameHolds(Normal(ps), ps) {
      var p := Named(a, ReadLevel);
      assert Holds(ps, p) && !Holds(Normal(ps), p);
    }
    if forall a :: !Misplaced(ps, a) {
      forall p ensures Holds(Normal(ps), p) <==> Holds(ps, p) {
        if p.Splits() { assert !Misplaced(ps, p.area); }
      }
    }
  }

  lemma ValidKeepsHolds(ps: Permissions)
    requires ValidPermissions(ps)
    ensures SameHolds(Normal(ps), ps)
  {
    NormalKeepsHoldsExactly(ps);
  }

  /** Approvals cannot be held at write, yet until it is dropped such an entry may decide. */
  lemma MisplacedLevelCounts()
    ensures var ps := map[Approvals := WriteLevel];
            Holds(ps, Named(Approvals, DecideLevel)) && !Holds(Normal(ps), Named(Approvals, DecideLevel))
  {
  }

  /** Among sets that pass validation, equal means satisfying the same permissions. */
  lemma PermissionsEqualExactly(a: Permissions, b: Permissions)
    requires ValidPermissions(a) && ValidPermissions(b)
    ensures Normal(a) == Normal(b) <==> SameHolds(a, b)
  {
    ValidKeepsHolds(a);
    ValidKeepsHolds(b);
    if SameHolds(a, b) {
      forall x | x in Normal(a) ensures x in Normal(b) && Normal(b)[x] == Normal(a)[x] { EntryFromHolds(a, b, x); }
      forall x | x in Normal(b) ensures x in Normal(a) { EntryFromHolds(b, a, x); }
    }
  }

  lemma EntryFromHolds(a: Permissions, b: Permissions, x: Area)
    requires SameHolds(Normal(a), a) && SameHolds(Normal(b), b) && SameHolds(a, b) && x in Normal(a)
    ensures x in Normal(b) && Normal(b)[x] == Normal(a)[x]
  {
    assert Holds(Normal(a), Named(x, Normal(a)[x]));
    assert Holds(Normal(b), Named(x, Normal(a)[x]));
    assert Holds(Normal(b), Named(x, Normal(b)[x]));
    assert Holds(Normal(a), Named(x, Normal(b)[x]));
  }

  // ---- Principals ---------------------------------------------------------

  /** A verified caller. */
  datatype Principal = Principal(
    id: string, roleId: string, tokenId: string,
    permissions: Permissions, grants: seq<Grant>, pending: bool)

  /** Absent stands for the nil principal. */
  predicate Can(p: Option<Principal>, perm: Permission) {
    p.Some? && !p.value.pending && Holds(p.value.permissions, perm)
  }

  predicate MayUse(p: Option<Principal>, plugin: string, level: Level) {
    p.Some? && !p.value.pending && Reaches(p.value.grants, plugin, level)
  }

  predicate ValidPrincipal(p: Principal) {
    Trim(p.id) != "" && ValidPermissions(p.permissions) && p.grants != [] && Storable(p.grants)
  }

  ghost predicate EqualPrincipals(p: Principal, q: Principal) {
    && p.id == q.id && p.roleId == q.roleId && p.tokenId == q.tokenId && p.pending == q.pending
    && Normal(p.permissions) == Normal(q.permissions)
    && NormalForm(p.grants) == NormalForm(q.grants)
  }

  method PermissionList(p: Option<Principal>) returns (out: seq<Permission>)
    ensures forall perm :: perm in out <==> Can(p, perm) && perm != SignedIn
    ensures p.None? || p.value.pending ==> out == []
    ensures p.Some? && !p.value.pending ==> out == Satisfied(p.value.permissions, InOrder(AREAS))
  {
    if p.None? || p.value.pending { return []; }
    out := ListPermissions(p.value.permissions);
    forall perm ensures perm in out <==> Can(p, perm) && perm != SignedIn {
      SatisfiedHolds(p.value.permissions, InOrder(AREAS), perm);
      InOrderIsAll(perm);
    }
  }

  // ---- Decisions ----------------------------------------------------------

  /** What a tool declares it takes to call it; unset means read. */
  datatype Capability = CapUnset | CapRead | CapPropose | CapApprove | CapAdmin | CapUnknown(word: string)

  datatype Decision = Allow | Deny

  function AuthorizeEndpoint(p: Option<Principal>, plugin: string): Decision {
    if MayUse(p, plugin, ReadLevel) then Allow else Deny
  }

  function AuthorizeTool(p: Option<Principal>, plugin: string, required: Capability): Decision {
    if AuthorizeEndpoint(p, plugin) == Deny then Deny else
      match required
      case CapRead => Allow
      case CapUnset => Allow
      case CapPropose => if MayUse(p, plugin, WriteLevel) then Allow else Deny
      case CapApprove => if Can(p, Named(Approvals, DecideLevel)) then Allow else Deny
      case CapAdmin => if Can(p, Named(Plugins, WriteLevel)) then Allow else Deny
      case CapUnknown(_) => Deny
  }

  /**
   Nobody, and somebody whose registration nobody has approved, holds no permission,
   not even that of being signed in, reaches no plugin and may call no tool; of anybody
   else the permissions and the grants decide.
   */
  lemma PendingMayNothing(p: Option<Principal>, perm: Permission, plugin: string, level: Level, cap: Capability)
    ensures p.None? || p.value.pending ==>
              !Can(p, perm) && !MayUse(p, plugin, level) && AuthorizeEndpoint(p, plugin) == Deny
              && AuthorizeTool(p, plugin, cap) == Deny
    ensures p.Some? && !p.value.pending ==>
              && (Can(p, perm) <==> Holds(p.value.permissions, perm))
              && (MayUse(p, plugin, level) <==> Reaches(p.value.grants, plugin, level))
              && (AuthorizeEndpoint(p, plugin) == Allow <==> Reaches(p.value.grants, plugin, ReadLevel))
  {
  }

  /**
   Who may call what. Without reach every tool is denied; a reader with no other
   authority may call read tools only; reach never stands in for the authority to decide
   or to manage plugins, nor that authority for reach; an unknown requirement is denied.
   */
  lemma WhoMayCall(p: Option<Principal>, plugin: string, cap: Capability)
    ensures !MayUse(p, plugin, ReadLevel) ==> AuthorizeTool(p, plugin, cap) == Deny
    ensures var decides, manages := Can(p, Named(Approvals, DecideLevel)), Can(p, Named(Plugins, WriteLevel));
            MayUse(p, plugin, ReadLevel) ==>
              (AuthorizeTool(p, plugin, cap) == Allow
               <==> cap in {CapRead, CapUnset} || (cap == CapPropose && MayUse(p, plugin, WriteLevel))
                    || (cap == CapApprove && decides) || (cap == CapAdmin && manages))
    ensures MayUse(p, plugin, WriteLevel) ==> MayUse(p, plugin, ReadLevel)
  {
    if MayUse(p, plugin, WriteLevel) {
      var g :| g in p.value.grants && Names(g, plugin) && g.level.Includes(WriteLevel);
      assert g.level.Includes(ReadLevel);
    }
  }

  /** Which principals are valid: an id that is not blank, entries that can be held, and grants that can be stored. */
  lemma ValidExactly(p: Principal)
    ensures ValidPrincipal(p)
            <==> && !Blank(p.id) && |p.grants| > 0
                 && (forall g | g in p.grants :: !Blank(g.plugin) && g.level in {ReadLevel, WriteLevel})
                 && (forall a | a in p.permissions ::
                       && !a.UnknownArea?
                       && (p.permissions[a] in {Unheld, ReadLevel}
                           || p.permissions[a] == if a == Approvals then DecideLevel else WriteLevel))
  {
    TrimsToNothing(p.id);
    forall g | g in p.grants ensures Trim(g.plugin) == "" <==> Blank(g.plugin) { TrimsToNothing(g.plugin); }
  }

  /** Two valid principals are equal exactly when who they are, what they hold and what they reach are the same. */
  lemma EqualExactly(p: Principal, q: Principal)
    requires ValidPrincipal(p) && ValidPrincipal(q) && Clean(p.grants) && Clean(q.grants)
    ensures EqualPrincipals(p, q)
            <==> && p.id == q.id && p.roleId == q.roleId && p.tokenId == q.tokenId && p.pending == q.pending
                 && SameHolds(p.permissions, q.permissions) && SameReach(p.grants, q.grants)
  {
    PermissionsEqualExactly(p.permissions, q.permissions);
    EqualIsSameReach(p.grants, q.grants);
  }

  /** Two principals answer every question alike. */
  ghost predicate SameAnswers(p: Principal, q: Principal) {
    && (forall perm :: Can(Some(p), perm) <==> Can(Some(q), perm))
    && (forall plugin, level :: MayUse(Some(p), plugin, level) <==> MayUse(Some(q), plugin, level))
    && (forall plugin, cap :: AuthorizeTool(Some(p), plugin, cap) == AuthorizeTool(Some(q), plugin, cap))
  }

  /**
   For validated principals of one identity, with grant names free of surrounding
   space: a principal nobody has approved yet answers no to everything, and any
   other two are equal exactly when they answer every question alike.
   */
  lemma EqualMeansSameAnswers(p: Principal, q: Principal)
    requires ValidPrincipal(p) && ValidPrincipal(q) && Clean(p.grants) && Clean(q.grants)
    requires p.id == q.id && p.roleId == q.roleId && p.tokenId == q.tokenId && p.pending == q.pending
    ensures EqualPrincipals(p, q) ==> SameAnswers(p, q)
    ensures !p.pending && SameAnswers(p, q) ==> EqualPrincipals(p, q)
  {
    PermissionsEqualExactly(p.permissions, q.permissions);
    EqualIsSameReach(p.grants, q.grants);
    if EqualPrincipals(p, q) { HoldingsDecide(p, q); }
    if !p.pending && SameAnswers(p, q) { AnswersTell(p, q); }
  }

  /** What a principal holds and reaches decides every answer. */
  lemma HoldingsDecide(p: Principal, q: Principal)
    requires p.pending == q.pending && SameHolds(p.permissions, q.permissions) && SameReach(p.grants, q.grants)
    ensures SameAnswers(p, q)
  {
    forall plugin, level ensures MayUse(Some(p), plugin, level) <==> MayUse(Some(q), plugin, level) {
      assert Reaches(p.grants, plugin, level) <==> Reaches(q.grants, plugin, level);
    }
    forall perm ensures Can(Some(p), perm) <==> Can(Some(q), perm) {
      assert Holds(p.permissions, perm) <==> Holds(q.permissions, perm);
    }
  }

  /** And the answers tell what it holds and reaches. */
  lemma AnswersTell(p: Principal, q: Principal)
    requires !p.pending && !q.pending && SameAnswers(p, q)
    ensures SameHolds(p.permissions, q.permissions) && SameReach(p.grants, q.grants)
  {
    forall perm ensures Holds(p.permissions, perm) <==> Holds(q.permissions, perm) {
      assert Can(Some(p), perm) <==> Can(Some(q), perm);
    }
    forall plugin, level ensures Reaches(p.grants, plugin, level) <==> Reaches(q.grants, plugin, level) {
      assert MayUse(Some(p), plugin, level) <==> MayUse(Some(q), plugin, level);
    }
  }

  /** Merging permissions in or adding grants never turns an allowed tool into a denied one. */
  lemma MoreNeverDenies(p: Principal, extra: Permissions, more: seq<Grant>, plugin: string, cap: Capability)
    requires AuthorizeTool(Some(p), plugin, cap) == Allow
    ensures var q := p.(permissions := Merged(p.permissions, extra), grants := p.grants + more);
            AuthorizeTool(Some(q), plugin, cap) == Allow
  {
    MergeHolds(p.permissions, extra, Named(Approvals, DecideLevel));
    MergeHolds(p.permissions, extra, Named(Plugins, WriteLevel));
    ReachOfConcat(p.grants, more, plugin, ReadLevel);
    ReachOfConcat(p.grants, more, plugin, WriteLevel);
  }

  // ---- Several roles ------------------------------------------------------

  /** What one role, a subject's own or a group's, hands out. */
  datatype Role = Role(permissions: Permissions, grants: seq<Grant>)

  ghost function MergedAll(roles: seq<Role>): Permissions {
    if roles == [] then map[] else Merged(MergedAll(roles[..|roles| - 1]), roles[|roles| - 1].permissions)
  }

  function GrantsOf(roles: seq<Role>): seq<seq<Grant>> {
    seq(|roles|, i requires 0 <= i < |roles| => roles[i].grants)
  }

  /** What a subject holds through all of its roles. */
  method ResolveAccess(roles: seq<Role>) returns (permissions: Permissions, grants: seq<Grant>)
    ensures permissions == MergedAll(roles) && grants == NormalForm(Flatten(GrantsOf(roles)))
  {
    permissions := map[];
    var lists: seq<seq<Grant>> := [];
    for i := 0 to |roles|
      invariant permissions == MergedAll(roles[..i]) && lists == GrantsOf(roles[..i])
    {
      assert roles[..i + 1][..i] == roles[..i];
      permissions := Merge(permissions, roles[i].permissions);
      lists := lists + [roles[i].grants];
    }
    assert roles[..|roles|] == roles;
    grants := UnionGrants(lists);
  }

  ghost predicate SomeHolds(roles: seq<Role>, perm: Permission) {
    exists i | 0 <= i < |roles| :: Holds(roles[i].permissions, perm)
  }

  /** Together the roles satisfy what one of them does. */
  lemma {:induction false} MergedAllHolds(roles: seq<Role>, perm: Permission)
    ensures Holds(MergedAll(roles), perm) <==> perm == SignedIn || SomeHolds(roles, perm)
  {
    if roles == [] {
    } else {
      var n := |roles| - 1;
      MergedAllHolds(roles[..n], perm);
      MergeHolds(MergedAll(roles[..n]), roles[n].permissions, perm);
      if SomeHolds(roles[..n], perm) {
        var i :| 0 <= i < n && Holds(roles[..n][i].permissions, perm);
        assert Holds(roles[i].permissions, perm);
      }
    }
  }

  /** The principal of a subject with these roles, and with one of them alone. */
  ghost function Through(p: Principal, roles: seq<Role>): Option<Principal> {
    Some(p.(permissions := MergedAll(roles), grants := NormalForm(Flatten(GrantsOf(roles)))))
  }

  function Under(p: Principal, r: Role): Option<Principal> {
    Some(p.(permissions := r.permissions, grants := r.grants))
  }

  ghost predicate SomeMayUse(p: Principal, roles: seq<Role>, plugin: string, level: Level) {
    exists i | 0 <= i < |roles| :: MayUse(Under(p, roles[i]), plugin, level)
  }

  lemma ThroughReaches(p: Principal, roles: seq<Role>, plugin: string, level: Level)
    requires forall r | r in roles :: Clean(r.grants)
    ensures MayUse(Through(p, roles), plugin, level) <==> SomeMayUse(p, roles, plugin, level)
  {
    var lists := GrantsOf(roles);
    forall l | l in lists ensures Clean(l) {
      var i :| 0 <= i < |lists| && lists[i] == l;
      assert roles[i] in roles;
    }
    UnionReach(lists, plugin, level);
    forall i | 0 <= i < |roles|
      ensures MayUse(Under(p, roles[i]), plugin, level) <==> !p.pending && Reaches(lists[i], plugin, level)
    {
      assert lists[i] == roles[i].grants;
    }
  }

  ghost predicate SomeAllows(p: Principal, roles: seq<Role>, plugin: string, cap: Capability) {
    exists i | 0 <= i < |roles| :: AuthorizeTool(Under(p, roles[i]), plugin, cap) == Allow
  }

  /** What a tool asks for beside reach. */
  function Authority(cap: Capability): Option<Permission> {
    match cap
    case CapApprove => Some(Named(Approvals, DecideLevel))
    case CapAdmin => Some(Named(Plugins, WriteLevel))
    case _ => None
  }

  /**
   Several roles together allow a tool exactly when one of them does, or when one
   reaches the plugin and another brings the authority the tool asks for beside reach.
   */
  lemma RolesAllowExactly(p: Principal, roles: seq<Role>, plugin: string, cap: Capability)
    requires forall r | r in roles :: Clean(r.grants)
    ensures AuthorizeTool(Through(p, roles), plugin, cap) == Allow
            <==> || SomeAllows(p, roles, plugin, cap)
                 || (Authority(cap).Some? && SomeMayUse(p, roles, plugin, ReadLevel)
                     && SomeHolds(roles, Authority(cap).value))
  {
    ThroughReaches(p, roles, plugin, ReadLevel);
    ThroughReaches(p, roles, plugin, WriteLevel);
    if Authority(cap).Some? { MergedAllHolds(roles, Authority(cap).value); }
    WhoMayCall(Through(p, roles), plugin, cap);
    RoleByRole(p, roles, plugin, cap);
  }

  /** Which role allows a tool by itself. */
  lemma RoleByRole(p: Principal, roles: seq<Role>, plugin: string, cap: Capability)
    ensures cap in {CapRead, CapUnset} ==>
              (SomeAllows(p, roles, plugin, cap) <==> SomeMayUse(p, roles, plugin, ReadLevel))
    ensures cap == CapPropose ==> (SomeAllows(p, roles, plugin, cap) <==> SomeMayUse(p, roles, plugin, WriteLevel))
    ensures cap.CapUnknown? ==> !SomeAllows(p, roles, plugin, cap)
    ensures Authority(cap).Some? && SomeAllows(p, roles, plugin, cap) ==>
              SomeMayUse(p, roles, plugin, ReadLevel) && SomeHolds(roles, Authority(cap).value)
  {
    forall i | 0 <= i < |roles|
      ensures AuthorizeTool(Under(p, roles[i]), plugin, cap) == Allow ==> MayUse(Under(p, roles[i]), plugin, ReadLevel)
      ensures cap in {CapRead, CapUnset} ==>
                (AuthorizeTool(Under(p, roles[i]), plugin, cap) == Allow
                 <==> MayUse(Under(p, roles[i]), plugin, ReadLevel))
      ensures cap == CapPropose ==>
                (AuthorizeTool(Under(p, roles[i]), plugin, cap) == Allow
                 <==> MayUse(Under(p, roles[i]), plugin, WriteLevel))
      ensures Authority(cap).Some? && AuthorizeTool(Under(p, roles[i]), plugin, cap) == Allow ==>
                Holds(roles[i].permissions, Authority(cap).value)
    {
      WhoMayCall(Under(p, roles[i]), plugin, cap);
    }
  }

  function Visible(p: Option<Principal>, all: seq<string>): seq<string> {
    if all == [] then [] else
      Visible(p, all[..|all| - 1])
      + (if MayUse(p, all[|all| - 1], ReadLevel) then [all[|all| - 1]] else [])
  }

  method VisiblePlugins(p: Option<Principal>, all: seq<string>) returns (out: seq<string>)
    ensures out == Visible(p, all)
  {
    out := [];
    for i := 0 to |all|
      invariant out == Visible(p, all[..i])
    {
      assert all[..i + 1][..i] == all[..i];
      if MayUse(p, all[i], ReadLevel) { out := out + [all[i]]; }
    }
    assert all[..|all|] == all;
  }

  lemma {:induction false} VisibleHolds(p: Option<Principal>, all: seq<string>, name: string)
    ensures name in Visible(p, all) <==> name in all && MayUse(p, name, ReadLevel)
  {
    if all == [] {
    } else {
      VisibleHolds(p, all[..|all| - 1], name);
      assert all == all[..|all| - 1] + [all[|all| - 1]];
    }
  }

  /** The plugins shown keep their order: those of two lists one after the other, and of one by itself. */
  lemma {:induction false} VisibleInOrder(p: Option<Principal>, some: seq<string>, more: seq<string>, name: string)
    ensures Visible(p, some + more) == Visible(p, some) + Visible(p, more)
    ensures Visible(p, [name]) == if MayUse(p, name, ReadLevel) then [name] else []
  {
    assert [name][..0] == [];
    if more == [] {
      assert some + more == some;
    } else {
      var n := |more| - 1;
      VisibleInOrder(p, some, more[..n], name);
      assert (some + more)[..|some + more| - 1] == some + more[..n];
    }
  }

  /** A caller who may use any tool of a mounted plugin is shown that plugin, and no others are. */
  lemma VisibleIsUsable(p: Option<Principal>, mounted: seq<string>, plugin: string)
    ensures plugin in Visible(p, mounted)
            <==> plugin in mounted && exists cap :: AuthorizeTool(p, plugin, cap) == Allow
  {
    VisibleHolds(p, mounted, plugin);
    if MayUse(p, plugin, ReadLevel) {
      assert AuthorizeTool(p, plugin, CapRead) == Allow;
    }
  }
}
