/** Removals write by write, and the two ways a plugin can be left serving what it should not. */
module Gaps {
  import opened Wrappers
  import opened Text
  import opened PluginSettings
  import opened Instances
  import opened Lifecycle
  import opened Reconcile
  import opened Dependence
  import opened Convergence

  // ---- Removals, write by write -------------------------------------------

  function SettingsWipe(d: Disk, name: string): Event {
    SettingsSaved(map k | k in d.stored && k.instance == name :: None, map[])
  }

  /** The writes of removing a declared plugin, up to the one that fails. */
  function RemovalWrites(d: Disk, actor: string, name: string, removed: bool, fault: Fault): seq<Event> {
    var wipe := if HasSettings(d, name) then [SettingsWipe(d, name)] else [];
    if HasSettings(d, name) && fault == AtSettings then []
    else if fault == AtRows then wipe
    else if removed || fault == AtOverride then wipe + [RowsWiped(name)]
    else
      var written := RemovalWritten(d.table, name, actor)[name];
      wipe + [RowsWiped(name), OverrideSaved(name, Some(written), fault != AtReload)]
  }

  function DisksAfter(d: Disk, events: seq<Event>): Disk {
    if events == [] then d else DiskAfter(DisksAfter(d, events[..|events| - 1]), events[|events| - 1])
  }

  lemma {:induction false} DiskOfRun(dep: Deployment, m: Machine, events: seq<Event>)
    ensures After(dep, m, events).disk == DisksAfter(m.disk, events)
  {
    if events == [] {
    } else {
      var n := |events| - 1;
      DiskOfRun(dep, m, events[..n]);
      StepDisk(dep, After(dep, m, events[..n]), events[n]);
    }
  }

  lemma StepDisk(dep: Deployment, m: Machine, e: Event)
    ensures Step(dep, m, e).disk == DiskAfter(m.disk, e)
  {
  }

  lemma DisksAfterOne(d: Disk, events: seq<Event>, e: Event)
    ensures DisksAfter(d, events + [e]) == DiskAfter(DisksAfter(d, events), e)
  {
    assert (events + [e])[..|events|] == events;
  }

  lemma WipeIsWiped(d: Disk, name: string)
    ensures DiskAfter(d, SettingsWipe(d, name)) == Wiped(d, name)
  {
    var d' := DiskAfter(d, SettingsWipe(d, name));
    assert d'.stored == Wiped(d, name).stored;
    assert d'.records == d.records;
  }

  lemma OverrideIsWritten(table: map<string, Override>, name: string, actor: string)
    ensures Written(table, map[name := Some(RemovalWritten(table, name, actor)[name])])
            == RemovalWritten(table, name, actor)
  {
  }

  lemma WipeWrites(d: Disk, name: string)
    ensures var wipe := if HasSettings(d, name) then [SettingsWipe(d, name)] else [];
            && DisksAfter(d, wipe) == Wiped(d, name)
            && DisksAfter(d, wipe + [RowsWiped(name)]) == Cleared(d, name)
  {
    var wipe := if HasSettings(d, name) then [SettingsWipe(d, name)] else [];
    if HasSettings(d, name) {
      var e := SettingsWipe(d, name);
      DisksAfterOne(d, [], e);
      assert [] + [e] == [e];
      WipeIsWiped(d, name);
    } else {
      WipedUnchanged(d, name);
    }
    DisksAfterOne(d, wipe, RowsWiped(name));
  }

  lemma WritesLeave(d: Disk, actor: string, name: string, removed: bool, fault: Fault)
    ensures DisksAfter(d, RemovalWrites(d, actor, name, removed, fault))
            == RemoveDeclared(d, actor, name, removed, fault).0
  {
    var wipe := if HasSettings(d, name) then [SettingsWipe(d, name)] else [];
    var writes := RemovalWrites(d, actor, name, removed, fault);
    WipeWrites(d, name);
    ForgetLeaves(d, name, fault);
    if !(HasSettings(d, name) && fault == AtSettings) && fault != AtRows && !removed && fault != AtOverride {
      var e := OverrideSaved(name, Some(RemovalWritten(d.table, name, actor)[name]), fault != AtReload);
      assert writes == (wipe + [RowsWiped(name)]) + [e];
      DisksAfterOne(d, wipe + [RowsWiped(name)], e);
      OverrideIsWritten(d.table, name, actor);
    }
  }

  /** A removal's writes, taken one at a time, leave what the removal leaves; finished, it is queued. */
  lemma RemovalIsItsWrites(dep: Deployment, m: Machine, actor: string, name: string, removed: bool, fault: Fault)
    ensures After(dep, m, RemovalWrites(m.disk, actor, name, removed, fault)).disk
            == RemoveDeclared(m.disk, actor, name, removed, fault).0
    ensures RemoveDeclared(m.disk, actor, name, removed, fault).1 == Done && !removed ==>
              After(dep, m, RemovalWrites(m.disk, actor, name, removed, fault)).queue[name] > 0
  {
    var writes := RemovalWrites(m.disk, actor, name, removed, fault);
    DiskOfRun(dep, m, writes);
    WritesLeave(m.disk, actor, name, removed, fault);
    if RemoveDeclared(m.disk, actor, name, removed, fault).1 == Done && !removed {
      ForgetLeaves(m.disk, name, fault);
      LastQueues(dep, m, writes, name);
    }
  }

  lemma LastQueues(dep: Deployment, m: Machine, events: seq<Event>, name: string)
    requires events != [] && var e := events[|events| - 1]; e.OverrideSaved? && e.reloaded && e.name == name
    ensures After(dep, m, events).queue[name] > 0
  {
  }

  /** What a removal's first writes leave: nothing done yet, the settings wiped, or the rows too. */
  lemma PrefixLeaves(d: Disk, actor: string, name: string, removed: bool, fault: Fault, i: nat)
    requires i < |RemovalWrites(d, actor, name, removed, fault)|
    ensures DisksAfter(d, RemovalWrites(d, actor, name, removed, fault)[..i])
            in {d, Wiped(d, name), Cleared(d, name)}
  {
    var writes := RemovalWrites(d, actor, name, removed, fault);
    var wipe := if HasSettings(d, name) then [SettingsWipe(d, name)] else [];
    WipeWrites(d, name);
    if i <= |wipe| {
      assert writes[..i] == wipe[..i];
      assert wipe[..i] == [] || wipe[..i] == wipe;
    } else {
      assert writes[..i] == wipe + [RowsWiped(name)];
    }
  }

  /** The writes of a removal: the wipes concern its own name, and the override comes last. */
  lemma WriteShape(d: Disk, actor: string, name: string, removed: bool, fault: Fault, i: nat)
    requires i < |RemovalWrites(d, actor, name, removed, fault)|
    ensures var writes := RemovalWrites(d, actor, name, removed, fault);
            && (writes[i].RowsWiped? ==> writes[i].name == name)
            && (writes[i].OverrideSaved? ==> writes[i].name == name && !removed && i == |writes| - 1)
  {
  }

  /** A finished removal of what was not removed ends by saving the override and reading it back. */
  lemma DoneEndsInOverride(d: Disk, actor: string, name: string, fault: Fault)
    requires RemoveDeclared(d, actor, name, false, fault).1 == Done
    ensures var writes := RemovalWrites(d, actor, name, false, fault);
            && writes != []
            && var last := writes[|writes| - 1]; last.OverrideSaved? && last.reloaded && last.name == name
  {
    ForgetLeaves(d, name, fault);
  }

  lemma OverridePicksUp(dep: Deployment, m: Machine, events: seq<Event>, name: string, j: nat)
    requires j < |events| && events[j].OverrideSaved? && events[j].reloaded && events[j].name == name
    ensures PickedUpAt(dep, m, events, name, j)
  {
  }

  /** A plugin that is removed uses no rows. */
  lemma RemovedUsesNoRows(dep: Deployment, d: Disk, name: string)
    requires Removed(dep, d, name) && name !in d.servers
    ensures !UsesRows(dep, d, name)
  {
  }

  /** Of a removal's writes only the wipe of the rows leaves its own name behind, and not once it was removed. */
  lemma OnlyTheWipeLeaves(dep: Deployment, m: Machine, actor: string, name: string, removed: bool, fault: Fault, i: nat)
    requires removed == Removed(dep, m.disk, name) && name !in m.disk.servers
    requires i < |RemovalWrites(m.disk, actor, name, removed, fault)|
    requires LeftAt(dep, m, RemovalWrites(m.disk, actor, name, removed, fault), name, i)
    ensures !removed && RemovalWrites(m.disk, actor, name, removed, fault)[i].RowsWiped?
  {
    var writes := RemovalWrites(m.disk, actor, name, removed, fault);
    DiskOfRun(dep, m, writes[..i]);
    PrefixLeaves(m.disk, actor, name, removed, fault, i);
    WriteShape(m.disk, actor, name, removed, fault, i);
    if removed { RemovedUsesNoRows(dep, DisksAfter(m.disk, writes[..i]), name); }
  }

  /**
   A removal that finishes does not leave its plugin behind: its wipe of the rows is
   followed by the override that queues the name, or the name was removed already.
   */
  lemma FinishedRemovalIsPickedUp(dep: Deployment, m: Machine, actor: string, name: string, fault: Fault)
    requires name !in m.disk.servers
    requires RemoveDeclared(m.disk, actor, name, Removed(dep, m.disk, name), fault).1 == Done
    ensures AlwaysPickedUp(dep, m, RemovalWrites(m.disk, actor, name, Removed(dep, m.disk, name), fault), name)
  {
    var removed := Removed(dep, m.disk, name);
    var writes := RemovalWrites(m.disk, actor, name, removed, fault);
    forall i | 0 <= i < |writes| && LeftAt(dep, m, writes, name, i)
      ensures exists j | i < j < |writes| :: PickedUpAt(dep, m, writes, name, j)
    {
      OnlyTheWipeLeaves(dep, m, actor, name, removed, fault, i);
      WipeIsPickedUp(dep, m, actor, name, fault, i);
    }
  }

  lemma WipeIsPickedUp(dep: Deployment, m: Machine, actor: string, name: string, fault: Fault, i: nat)
    requires RemoveDeclared(m.disk, actor, name, false, fault).1 == Done
    requires i < |RemovalWrites(m.disk, actor, name, false, fault)|
    requires RemovalWrites(m.disk, actor, name, false, fault)[i].RowsWiped?
    ensures var writes := RemovalWrites(m.disk, actor, name, false, fault);
            exists j | i < j < |writes| :: PickedUpAt(dep, m, writes, name, j)
  {
    DoneEndsInOverride(m.disk, actor, name, fault);
    LaterOverridePicksUp(dep, m, RemovalWrites(m.disk, actor, name, false, fault), name, i);
  }

  lemma LaterOverridePicksUp(dep: Deployment, m: Machine, events: seq<Event>, name: string, i: nat)
    requires i < |events| && events[i].RowsWiped?
    requires var last := events[|events| - 1]; last.OverrideSaved? && last.reloaded && last.name == name
    ensures exists j | i < j < |events| :: PickedUpAt(dep, m, events, name, j)
  {
    OverridePicksUp(dep, m, events, name, |events| - 1);
  }

  lemma OthersByField<V>(m: map<PluginKey, V>, name: string, other: string)
    requires other != name
    ensures ByField(map k | k in m && k.instance != name :: m[k], other) == ByField(m, other)
  {
  }

  lemma OthersInputs(dep: Deployment, d: Disk, d': Disk, name: string, other: string)
    requires d' in {d, Wiped(d, name), Cleared(d, name)} && other != name
    ensures InputsOf(dep, d', other) == InputsOf(dep, d, other)
    ensures SameDeclaration(d, d', other) && d' == d.(stored := d'.stored, rows := d'.rows)
  {
    OthersByField(d.stored, name, other);
    OthersByField(d.rows, name, other);
  }

  lemma EnabledFrame(dep: Deployment, d: Disk, d': Disk, name: string)
    requires d'.records == d.records && d'.cache == d.cache
    ensures EnabledAfter(dep, d', name) == EnabledAfter(dep, d, name)
  {
  }

  /** Clearing one plugin's values leaves what is said of another alone. */
  lemma UnreadFrame(dep: Deployment, d: Disk, d': Disk, other: string)
    requires d' == d.(stored := d'.stored, rows := d'.rows) && InputsOf(dep, d', other) == InputsOf(dep, d, other)
    ensures SwitchedUnread(dep, d', other) <==> SwitchedUnread(dep, d, other)
  {
    InstanceFrame(dep, d, d', other);
    EnabledFrame(dep, d, d', other);
    EnabledFrame(dep, d.(cache := d.table), d'.(cache := d'.table), other);
    if InstanceOf(dep, d, other).Some? {
      UnreadReady(dep, d, d', InstanceOf(dep, d, other).value, InstanceOf(dep, d', other).value);
    }
  }

  lemma UnreadReady(dep: Deployment, d: Disk, d': Disk, i: Instance, i': Instance)
    requires d'.servers == d.servers && InputsOf(dep, d', i.name) == InputsOf(dep, d, i.name)
    requires i' == i.(storedSettings := i'.storedSettings)
    ensures Ready(dep, d', i') == Ready(dep, d, i)
  {
  }

  /** Of a removal's writes only the last leaves another name behind, and only one switched and unread before it all. */
  lemma OnlyTheReloadLeaves(dep: Deployment, m: Machine, actor: string, name: string, removed: bool, fault: Fault,
                            other: string, i: nat)
    requires other != name && i < |RemovalWrites(m.disk, actor, name, removed, fault)|
    ensures var writes := RemovalWrites(m.disk, actor, name, removed, fault);
            LeftAt(dep, m, writes, other, i)
            <==> writes[i].OverrideSaved? && writes[i].reloaded && SwitchedUnread(dep, m.disk, other)
  {
    var writes := RemovalWrites(m.disk, actor, name, removed, fault);
    DiskOfRun(dep, m, writes[..i]);
    PrefixLeaves(m.disk, actor, name, removed, fault, i);
    WriteShape(m.disk, actor, name, removed, fault, i);
    OthersInputs(dep, m.disk, DisksAfter(m.disk, writes[..i]), name, other);
    UnreadFrame(dep, m.disk, DisksAfter(m.disk, writes[..i]), other);
  }

  /**
   A removal that finishes leaves no other plugin behind exactly when it wrote no
   override, or the other was not switched and unread.
   */
  lemma RemovalSparesOthersExactly(dep: Deployment, m: Machine, actor: string, name: string, fault: Fault,
                                   other: string)
    requires other != name
    requires RemoveDeclared(m.disk, actor, name, Removed(dep, m.disk, name), fault).1 == Done
    ensures AlwaysPickedUp(dep, m, RemovalWrites(m.disk, actor, name, Removed(dep, m.disk, name), fault), other)
            <==> Removed(dep, m.disk, name) || !SwitchedUnread(dep, m.disk, other)
  {
    var removed := Removed(dep, m.disk, name);
    var writes := RemovalWrites(m.disk, actor, name, removed, fault);
    forall i | 0 <= i < |writes|
      ensures LeftAt(dep, m, writes, other, i) ==> !removed && SwitchedUnread(dep, m.disk, other)
    {
      OnlyTheReloadLeaves(dep, m, actor, name, removed, fault, other, i);
      WriteShape(m.disk, actor, name, removed, fault, i);
    }
    if !removed {
      DoneEndsInOverride(m.disk, actor, name, fault);
      OnlyTheReloadLeaves(dep, m, actor, name, removed, fault, other, |writes| - 1);
    }
  }

  // ---- Both gaps are real -------------------------------------------------

  /** A host whose file declares the plugins named and nothing else about them. */
  predicate Declares(dep: Deployment, names: set<string>, fields: seq<Field>) {
    && dep.dirs == map[] && dep.types == (map n | n in names :: fields)
    && dep.file == map n | n in names :: FileEntry("", true, false, map[])
  }

  predicate Undecorated(d: Disk) {
    d.stored == map[] && d.servers == map[] && d.records == map[] && d.cache == map[]
  }

  /** What such a plugin needs, and what it is built from. */
  lemma WantedDeclared(dep: Deployment, d: Disk, names: set<string>, fields: seq<Field>, trust: string, name: string)
    requires Declares(dep, names, fields) && name in names && Undecorated(d)
    ensures var r := Resolved(InputsOf(dep, d, name), fields);
            Wanted(dep, d, trust, name).Some? <==> r.Ok? && Complete(fields, r.value)
  {
    assert Trim("") == "";
    assert InstanceOf(dep, d, name)
        == Some(Instance(name, name, Builtin, true, false, true, false, false, "", false));
  }

  lemma TableResolves(ins: Inputs, f: Field)
    requires ins.file == map[] && f.kind == Collection && f.required
    ensures var rows := if f.key in ins.rows then MergedRows(ins.rows[f.key]) else [];
            Resolved(ins, [f]) == Ok(map[f.key := Rows(rows)])
            && (Complete([f], map[f.key := Rows(rows)]) <==> rows != [])
  {
    assert [f][..0] == [] && f in [f];
    var filled: map<string, Value> := map[f.key := Rows(TableOf(ins, f).value)];
    assert Filled(ins, [f][..0]) == Ok(map[]);
    assert Filled(ins, [f]) == Ok(filled);
    assert PassedThrough(filled, map[]) == filled;
  }

  lemma RowsDecide(dep: Deployment, d: Disk, trust: string, name: string, f: Field)
    requires Declares(dep, {name}, [f]) && f.kind == Collection && f.required && Undecorated(d)
    ensures Wanted(dep, d, trust, name).Some? <==>
            PluginKey(name, f.key) in d.rows && MergedRows(d.rows[PluginKey(name, f.key)]) != []
  {
    WantedDeclared(dep, d, {name}, [f], trust, name);
    TableResolves(InputsOf(dep, d, name), f);
    ByFieldAt(d.rows, name, f.key);
  }

  /** A host serving one plugin, with nothing queued. */
  function Serving(d: Disk, trust: string, name: string, b: Built): Machine {
    Machine(d, trust, Served(map[name := b], {}), multiset{})
  }

  /** A write after which a plugin goes on serving what its configuration no longer asks for, unqueued. */
  predicate LeftServing(dep: Deployment, d: Disk, trust: string, name: string, e: Event) {
    && Wanted(dep, d, trust, name).Some?
    && var m := Serving(d, trust, name, Wanted(dep, d, trust, name).value);
       var m' := Step(dep, m, e);
       InSync(dep, m, name) && !InSync(dep, m', name) && m'.served == m.served && m'.queue[name] == 0
  }

  lemma UnqueuedIsLeftServing(dep: Deployment, d: Disk, trust: string, name: string, e: Event)
    requires Wanted(dep, d, trust, name).Some? && Wanted(dep, DiskAfter(d, e), trust, name) == None
    requires !e.Reconciled? && !e.TrustChanged? && name !in Queued(dep, d, e)
    ensures LeftServing(dep, d, trust, name, e)
  {
    var m := Serving(d, trust, name, Wanted(dep, d, trust, name).value);
    StepDisk(dep, m, e);
    WritesServeOn(dep, m, e, name);
    StillServing(dep, m, Step(dep, m, e), name);
  }

  lemma StillServing(dep: Deployment, m: Machine, m': Machine, name: string)
    requires m'.served == m.served && m'.trust == m.trust && name in m.served.mounted
    requires Wanted(dep, m.disk, m.trust, name) == Some(m.served.mounted[name])
    requires Wanted(dep, m'.disk, m.trust, name) == None
    ensures InSync(dep, m, name) && !InSync(dep, m', name)
  {
  }

  lemma WritesServeOn(dep: Deployment, m: Machine, e: Event, name: string)
    requires !e.Reconciled? && !e.TrustChanged?
    ensures Step(dep, m, e).served == m.served && Step(dep, m, e).trust == m.trust
    ensures m.queue[name] == 0 && name !in Queued(dep, m.disk, e) ==> Step(dep, m, e).queue[name] == 0
  {
  }

  lemma WipeLeavesServing(dep: Deployment, d: Disk, trust: string, name: string)
    requires Wanted(dep, d, trust, name).Some? && Wanted(dep, Unrowed(d, name), trust, name) == None
    ensures LeftServing(dep, d, trust, name, RowsWiped(name))
  {
    var e := RowsWiped(name);
    WipeIsQuiet(dep, d, name);
    UnqueuedIsLeftServing(dep, d, trust, name, e);
  }

  lemma WipeIsQuiet(dep: Deployment, d: Disk, name: string)
    ensures Queued(dep, d, RowsWiped(name)) == {} && DiskAfter(d, RowsWiped(name)) == Unrowed(d, name)
  {
  }

  lemma RowsOnlyWrites(d: Disk, actor: string, name: string)
    requires !HasSettings(d, name)
    ensures RemovalWrites(d, actor, name, false, AtOverride) == [RowsWiped(name)]
  {
  }

  lemma WipeUnwants(dep: Deployment, d: Disk, trust: string, name: string, f: Field)
    requires Declares(dep, {name}, [f]) && f.kind == Collection && f.required && Undecorated(d)
    requires d.rows == map[PluginKey(name, f.key) := [Row(map[], map[])]]
    ensures Wanted(dep, d, trust, name).Some? && Wanted(dep, Unrowed(d, name), trust, name) == None
  {
    assert MergedRows(d.rows[PluginKey(name, f.key)]) != [];
    RowsDecide(dep, d, trust, name, f);
    RowsDecide(dep, Unrowed(d, name), trust, name, f);
  }

  /**
   A plugin serving from its rows, removed, with the removal's last write failing: its
   rows are gone, it goes on serving what it was built from, and nothing is queued.
   */
  lemma UnfinishedRemovalGoesOnServing(dep: Deployment, d: Disk, actor: string, trust: string, name: string, f: Field)
    requires Declares(dep, {name}, [f]) && f.kind == Collection && f.required && Undecorated(d)
    requires d.rows == map[PluginKey(name, f.key) := [Row(map[], map[])]]
    ensures RemovalWrites(d, actor, name, false, AtOverride) == [RowsWiped(name)]
    ensures LeftServing(dep, d, trust, name, RowsWiped(name))
  {
    RowsOnlyWrites(d, actor, name);
    WipeUnwants(dep, d, trust, name, f);
    WipeLeavesServing(dep, d, trust, name);
  }

  lemma SwitchedOffIsUnwanted(dep: Deployment, d: Disk, trust: string, name: string)
    requires Declared(dep, name) && name !in d.servers
    requires name in d.cache && !d.cache[name].removed && d.cache[name].enabled == Some(false)
    ensures Wanted(dep, d, trust, name) == None
  {
  }

  lemma NothingNeeded(dep: Deployment, d: Disk, names: set<string>, trust: string, name: string)
    requires Declares(dep, names, []) && name in names && Undecorated(d)
    ensures Wanted(dep, d, trust, name).Some?
  {
    WantedDeclared(dep, d, names, [], trust, name);
  }

  lemma ReloadBringsIn(d: Disk, e: Event, name: string)
    requires e.OverrideSaved? && e.reloaded && name != e.name && name in d.table
    ensures var d' := DiskAfter(d, e);
            d'.servers == d.servers && name in d'.cache && d'.cache[name] == d.table[name]
  {
    WrittenAt(d.table, map[e.name := e.override], name);
  }

  /**
   An override saved while its own reload failed comes into force with the next
   reload, for another name: the plugin it switches off goes on serving, with nothing
   queued for it.
   */
  lemma AnothersReloadLeavesItServing(dep: Deployment, d: Disk, off: Override, trust: string,
                                      name: string, other: string)
    requires other != name && Declares(dep, {name, other}, []) && Undecorated(d)
    requires off.enabled == Some(false) && !off.removed && d.table == map[name := off]
    ensures LeftServing(dep, d, trust, name, OverrideSaved(other, Some(off), true))
  {
    var e := OverrideSaved(other, Some(off), true);
    NothingNeeded(dep, d, {name, other}, trust, name);
    ReloadBringsIn(d, e, name);
    SwitchedOffIsUnwanted(dep, DiskAfter(d, e), trust, name);
    UnqueuedIsLeftServing(dep, d, trust, name, e);
  }
}
