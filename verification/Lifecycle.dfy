/** Adding, removing, restoring and switching plugins, one store write at a time. */
module Lifecycle {
  import opened Wrappers
  import opened Maps
  import opened PluginSettings
  import opened Instances

  /** The store write that fails, if one does. A write that fails changes nothing. */
  datatype Fault = NoFault | AtSettings | AtRows | AtOverride | AtReload

  datatype Outcome =
    | Done | NoSuchPlugin | RemoteServer | NeedsAcknowledgement | NameTaken | BadName | UnknownType
    | NotRemoved | IsRemoved | Failed(at: Fault)

  // ---- Store writes -------------------------------------------------------

  function Wiped(d: Disk, name: string): Disk {
    d.(stored := map k | k in d.stored && k.instance != name :: d.stored[k])
  }

  function Unrowed(d: Disk, name: string): Disk {
    d.(rows := map k | k in d.rows && k.instance != name :: d.rows[k])
  }

  function Unrecorded(d: Disk, name: string): Disk {
    d.(records := d.records - {name})
  }

  predicate HasRows(d: Disk, name: string) {
    exists k | k in d.rows :: k.instance == name
  }

  /** Nothing is stored under the name. */
  predicate Forgotten(d: Disk, name: string) {
    !HasSettings(d, name) && !HasRows(d, name)
  }

  /** Records a removal, keeping what the row says about being on; a second one changes nothing. */
  function RemovalWritten(table: map<string, Override>, name: string, actor: string): map<string, Override> {
    if name !in table then table[name := Override(true, None, actor)]
    else if table[name].removed then table
    else table[name := Override(true, table[name].enabled, actor)]
  }

  /** Forgets a removal: the row goes if that is all it held. Absent when nothing was removed. */
  function RestoreWritten(table: map<string, Override>, name: string, actor: string): Option<map<string, Override>> {
    if name !in table || !table[name].removed then None
    else if table[name].enabled.None? then Some(table - {name})
    else Some(table[name := Override(false, table[name].enabled, actor)])
  }

  /** Switches a declaration on or off. Absent when it is removed. */
  function SwitchWritten(table: map<string, Override>, name: string, actor: string, on: bool)
    : Option<map<string, Override>>
  {
    if name !in table then Some(table[name := Override(false, Some(on), actor)])
    else if table[name].removed then None
    else if table[name].enabled == Some(on) then Some(table)
    else Some(table[name := Override(false, Some(on), actor)])
  }

  // ---- Operations ---------------------------------------------------------

  /** Wipes what a name holds: its settings, with its record if asked, and then its rows. */
  function Forget(d: Disk, name: string, record: bool, fault: Fault): (Disk, Outcome) {
    if (record || HasSettings(d, name)) && fault == AtSettings then (d, Failed(AtSettings)) else
    var d1 := Wiped(if record then Unrecorded(d, name) else d, name);
    if fault == AtRows then (d1, Failed(AtRows)) else (Unrowed(d1, name), Done)
  }

  /** Writes an override and reads the overrides back into memory. */
  function SaveOverride(d: Disk, table: map<string, Override>, fault: Fault): (Disk, Outcome) {
    if fault == AtOverride then (d, Failed(AtOverride))
    else if fault == AtReload then (d.(table := table), Failed(AtReload))
    else (d.(table := table, cache := table), Done)
  }

  /** The wipe first, the override second; something already removed needs only the wipe. */
  function RemoveDeclared(d: Disk, actor: string, name: string, removed: bool, fault: Fault): (Disk, Outcome) {
    var (d1, wiped) := Forget(d, name, false, fault);
    if wiped != Done || removed then (d1, wiped)
    else SaveOverride(d1, RemovalWritten(d1.table, name, actor), fault)
  }

  function Remove(dep: Deployment, d: Disk, actor: string, name: string, ack: bool, fault: Fault): (Disk, Outcome) {
    match InstanceOf(dep, d, name)
    case None => (d, NoSuchPlugin)
    case Some(i) =>
      if i.runtime == Remote then (d, RemoteServer)
      else if !(i.fromFile || i.fromDir) then Forget(d, name, true, fault)
      else if i.required && !i.removed && !ack then (d, NeedsAcknowledgement)
      else RemoveDeclared(d, actor, name, i.removed, fault)
  }

  function Restore(d: Disk, actor: string, name: string, fault: Fault): (Disk, Outcome) {
    match RestoreWritten(d.table, name, actor)
    case None => (d, NotRemoved)
    case Some(table) => SaveOverride(d, table, fault)
  }

  function SwitchDeclared(d: Disk, actor: string, name: string, on: bool, fault: Fault): (Disk, Outcome) {
    match SwitchWritten(d.table, name, actor, on)
    case None => (d, IsRemoved)
    case Some(table) => SaveOverride(d, table, fault)
  }

  function SetEnabled(dep: Deployment, d: Disk, actor: string, name: string, on: bool, fault: Fault): (Disk, Outcome) {
    match InstanceOf(dep, d, name)
    case None => (d, NoSuchPlugin)
    case Some(i) =>
      if i.runtime == Remote then (d, RemoteServer)
      else if i.fromFile || i.fromDir then
        if i.removed then (d, IsRemoved) else SwitchDeclared(d, actor, name, on, fault)
      else if fault == AtSettings then (d, Failed(AtSettings))
      else (d.(records := d.records[name := Record(i.typ, on)]), Done)
  }

  function Add(dep: Deployment, d: Disk, name: string, typ: string, fault: Fault): (Disk, Outcome) {
    if !NameOk(name) then (d, BadName)
    else if typ !in dep.types then (d, UnknownType)
    else if InstanceOf(dep, d, name).Some? then (d, NameTaken)
    else if fault == AtSettings then (d, Failed(AtSettings))
    else (d.(records := d.records[name := Record(typ, true)]), Done)
  }

  /** A host's plugin configuration, changed in place. */
  class PluginHost {
    const dep: Deployment
    var stored: map<PluginKey, string>
    var rows: map<PluginKey, seq<Row>>
    var records: map<string, Record>
    var table: map<string, Override>
    var cache: map<string, Override>
    var servers: map<string, Server>

    function Held(): Disk
      reads this
    {
      Disk(stored, rows, records, table, cache, servers)
    }

    constructor (dep: Deployment, d: Disk)
      ensures this.dep == dep && Held() == d
    {
      this.dep := dep;
      stored, rows, records, table, cache, servers := d.stored, d.rows, d.records, d.table, d.cache, d.servers;
    }

    /** Wipes a name: every stored setting, by namespace, in one write; then every row. */
    method ForgetInstance(name: string, record: bool, fault: Fault) returns (r: Outcome)
      modifies this
      ensures (Held(), r) == Forget(old(Held()), name, record, fault)
    {
      var keys: set<PluginKey> := {};
      var left := stored.Keys;
      while left != {}
        invariant left <= stored.Keys
        invariant forall k :: k in keys <==> k in stored && k !in left && k.instance == name
        invariant Held() == old(Held())
        decreases left
      {
        var k :| k in left;
        left := left - {k};
        if k.instance == name { keys := keys + {k}; }
      }
      assert keys != {} <==> HasSettings(Held(), name);
      if record || keys != {} {
        if fault == AtSettings { return Failed(AtSettings); }
        stored := stored - keys;
        if record { records := records - {name}; }
      }
      assert stored == map k | k in old(stored) && k.instance != name :: old(stored)[k];
      if fault == AtRows { return Failed(AtRows); }
      rows := map k | k in rows && k.instance != name :: rows[k];
      return Done;
    }

    /** The override write, and the cache refreshed from what is now stored. */
    method SaveOverrides(written: map<string, Override>, fault: Fault) returns (r: Outcome)
      modifies this`table, this`cache
      ensures (Held(), r) == SaveOverride(old(Held()), written, fault)
    {
      if fault == AtOverride { return Failed(AtOverride); }
      table := written;
      if fault == AtReload { return Failed(AtReload); }
      cache := table;
      return Done;
    }

    method RemoveInstance(actor: string, name: string, ack: bool, fault: Fault) returns (r: Outcome)
      modifies this
      ensures (Held(), r) == Remove(dep, old(Held()), actor, name, ack, fault)
    {
      var found := FindInstance(dep, Held(), name);
      if found.None? { return NoSuchPlugin; }
      var i := found.value;
      if i.runtime == Remote { return RemoteServer; }
      if i.fromFile || i.fromDir {
        if i.required && !i.removed && !ack { return NeedsAcknowledgement; }
        r := ForgetInstance(name, false, fault);
        if r != Done { return; }
        if i.removed { return Done; }
        r := SaveOverrides(RemovalWritten(table, name, actor), fault);
        return;
      }
      r := ForgetInstance(name, true, fault);
    }

    method RestoreInstance(actor: string, name: string, fault: Fault) returns (r: Outcome)
      modifies this
      ensures (Held(), r) == Restore(old(Held()), actor, name, fault)
    {
      var restored := RestoreWritten(table, name, actor);
      if restored.None? { return NotRemoved; }
      r := SaveOverrides(restored.value, fault);
    }

    method SwitchOverride(actor: string, name: string, on: bool, fault: Fault) returns (r: Outcome)
      modifies this`table, this`cache
      ensures (Held(), r) == SwitchDeclared(old(Held()), actor, name, on, fault)
    {
      var switched := SwitchWritten(table, name, actor, on);
      if switched.None? { return IsRemoved; }
      r := SaveOverrides(switched.value, fault);
    }

    method SetInstanceEnabled(actor: string, name: string, on: bool, fault: Fault) returns (r: Outcome)
      modifies this
      ensures (Held(), r) == SetEnabled(dep, old(Held()), actor, name, on, fault)
    {
      var found := FindInstance(dep, Held(), name);
      if found.None? { return NoSuchPlugin; }
      var i := found.value;
      if i.runtime == Remote { return RemoteServer; }
      if i.fromFile || i.fromDir {
        if i.removed { return IsRemoved; }
        r := SwitchOverride(actor, name, on, fault);
        return;
      }
      if fault == AtSettings { return Failed(AtSettings); }
      records := records[name := Record(i.typ, on)];
      return Done;
    }

    method AddInstance(name: string, typ: string, fault: Fault) returns (r: Outcome)
      modifies this
      ensures (Held(), r) == Add(dep, old(Held()), name, typ, fault)
    {
      if !NameOk(name) { return BadName; }
      if typ !in dep.types { return UnknownType; }
      var found := FindInstance(dep, Held(), name);
      if found.Some? { return NameTaken; }
      if fault == AtSettings { return Failed(AtSettings); }
      records := records[name := Record(typ, true)];
      return Done;
    }
  }

  // ---- Refusals, and what is recorded -------------------------------------

  /** When a removal is refused, and that a refusal changes nothing. */
  lemma RemovalRefusedExactly(dep: Deployment, d: Disk, actor: string, name: string, ack: bool, fault: Fault)
    ensures var (d', r) := Remove(dep, d, actor, name, ack, fault);
            && (r == NoSuchPlugin <==> InstanceOf(dep, d, name).None?)
            && (r == RemoteServer <==> name in d.servers)
            && (r == NeedsAcknowledgement
                <==> name !in d.servers && DeclaredRequired(dep, name) && !Removed(dep, d, name) && !ack)
            && (r in {NoSuchPlugin, RemoteServer, NeedsAcknowledgement} ==> d' == d)
            && (r in {NoSuchPlugin, RemoteServer, NeedsAcknowledgement, Done} || r.Failed?)
  {
    if InstanceOf(dep, d, name).Some? {
      WipesEnd(d, actor, name, InstanceOf(dep, d, name).value.removed, fault);
      assert name !in d.servers && !Declared(dep, name) ==> !DeclaredRequired(dep, name);
    }
  }

  /** The writes of a removal end well, or in the failure of one of them. */
  lemma WipesEnd(d: Disk, actor: string, name: string, removed: bool, fault: Fault)
    ensures RemoveDeclared(d, actor, name, removed, fault).1 == Done
            || RemoveDeclared(d, actor, name, removed, fault).1.Failed?
    ensures Forget(d, name, true, fault).1 == Done || Forget(d, name, true, fault).1.Failed?
  {
  }

  /** Which writes fail, and that the settings' write is only made when there is something to write. */
  lemma FailuresExactly(d: Disk, actor: string, name: string, removed: bool, record: bool, fault: Fault)
    ensures Forget(d, name, record, fault).1
            == if fault == AtSettings && (record || HasSettings(d, name)) then Failed(AtSettings)
               else if fault == AtRows then Failed(AtRows) else Done
    ensures RemoveDeclared(d, actor, name, removed, fault).1
            == if fault == AtSettings && HasSettings(d, name) then Failed(AtSettings)
               else if fault == AtRows then Failed(AtRows)
               else if !removed && fault in {AtOverride, AtReload} then Failed(fault) else Done
  {
  }

  /** A wipe takes what is under the name, and nothing else. */
  lemma WipesExactly(d: Disk, name: string, k: PluginKey, other: string)
    ensures Get(Wiped(d, name).stored, k) == (if k.instance == name then None else Get(d.stored, k))
    ensures Get(Unrowed(d, name).rows, k) == (if k.instance == name then None else Get(d.rows, k))
    ensures Get(Unrecorded(d, name).records, other) == (if other == name then None else Get(d.records, other))
    ensures Wiped(d, name) == d.(stored := Wiped(d, name).stored)
    ensures Unrowed(d, name) == d.(rows := Unrowed(d, name).rows)
    ensures Unrecorded(d, name) == d.(records := Unrecorded(d, name).records)
  {
  }

  /** When an addition is refused. */
  lemma AdditionRefusedExactly(dep: Deployment, d: Disk, name: string, typ: string, fault: Fault)
    ensures var (d', r) := Add(dep, d, name, typ, fault);
            && (r == BadName <==> !NameOk(name))
            && (r == UnknownType <==> NameOk(name) && typ !in dep.types)
            && (r == NameTaken <==> NameOk(name) && typ in dep.types && InstanceOf(dep, d, name).Some?)
            && (r == Done
                <==> NameOk(name) && typ in dep.types && InstanceOf(dep, d, name).None? && fault != AtSettings)
            && (r != Done ==> d' == d)
  {
  }

  /** When a switch is refused. */
  lemma SwitchRefusedExactly(dep: Deployment, d: Disk, actor: string, name: string, on: bool, fault: Fault)
    ensures var (d', r) := SetEnabled(dep, d, actor, name, on, fault);
            && (r == NoSuchPlugin <==> InstanceOf(dep, d, name).None?)
            && (r == RemoteServer <==> name in d.servers)
            && (r == IsRemoved <==> name !in d.servers && Declared(dep, name)
                                    && (Removed(dep, d, name) || (name in d.table && d.table[name].removed)))
            && (r in {NoSuchPlugin, RemoteServer, IsRemoved} ==> d' == d)
  {
  }

  /** When a restore is refused. */
  lemma RestoreRefusedExactly(d: Disk, actor: string, name: string, fault: Fault)
    ensures Restore(d, actor, name, fault).1 == NotRemoved <==> !(name in d.table && d.table[name].removed)
    ensures Restore(d, actor, name, fault).1 == NotRemoved ==> Restore(d, actor, name, fault).0 == d
  {
  }

  /** What each write records of every name: the name's own row, signed by who made it, and no other. */
  lemma OverridesWritten(table: map<string, Override>, name: string, actor: string, on: bool, other: string)
    ensures var t := RemovalWritten(table, name, actor);
            && Get(t, other) == (if other != name || (name in table && table[name].removed) then Get(table, other)
                                 else Some(Override(true, if name in table then table[name].enabled else None, actor)))
    ensures var t := RestoreWritten(table, name, actor);
            t.Some? ==> Get(t.value, other) == (if other != name then Get(table, other)
                                                else if table[name].enabled.None? then None
                                                else Some(Override(false, table[name].enabled, actor)))
    ensures var t := SwitchWritten(table, name, actor, on);
            t.Some? ==> Get(t.value, other) == (if other != name || (name in table && table[name].enabled == Some(on))
                                                then Get(table, other) else Some(Override(false, Some(on), actor)))
  {
  }

  // ---- Adding and switching -----------------------------------------------

  /** A plugin added in the dashboard is there, on, of its type; nothing else about the host changes. */
  lemma AddedIsThere(dep: Deployment, d: Disk, name: string, typ: string, fault: Fault, other: string)
    requires Add(dep, d, name, typ, fault).1 == Done
    ensures var d' := Add(dep, d, name, typ, fault).0;
            && InstanceOf(dep, d', name)
               == Some(Instance(name, typ, Builtin, false, false, true, false, false, "", false))
            && (other != name ==> InstanceOf(dep, d', other) == InstanceOf(dep, d, other))
            && d'.stored == d.stored && d'.rows == d.rows && d'.table == d.table
  {
    var d' := Add(dep, d, name, typ, fault).0;
    if other != name { InstanceFrame(dep, d, d', other); }
  }

  /** The overrides after a switch say so about the name, and nothing new about any other. */
  lemma SwitchIsWritten(table: map<string, Override>, name: string, actor: string, on: bool)
    requires SwitchWritten(table, name, actor, on).Some?
    ensures var t := SwitchWritten(table, name, actor, on).value;
            && name in t && !t[name].removed && t[name].enabled == Some(on)
            && t - {name} == table - {name}
  {
    assert SwitchWritten(table, name, actor, on).value - {name} == table - {name};
  }

  /** What a finished switch of a declaration leaves: the override, and nothing else, is new. */
  lemma DeclaredSwitchLeaves(d: Disk, actor: string, name: string, on: bool, fault: Fault)
    requires SwitchDeclared(d, actor, name, on, fault).1 == Done
    ensures var d' := SwitchDeclared(d, actor, name, on, fault).0;
            SwitchWritten(d.table, name, actor, on) == Some(d'.cache) && d' == d.(table := d'.cache, cache := d'.cache)
  {
  }

  /** What a finished switch leaves: the override or the record, and nothing else, is new. */
  lemma SwitchLeaves(dep: Deployment, d: Disk, actor: string, name: string, on: bool, fault: Fault)
    requires SetEnabled(dep, d, actor, name, on, fault).1 == Done
    ensures var d' := SetEnabled(dep, d, actor, name, on, fault).0;
            && name !in d.servers && d'.servers == d.servers && d'.stored == d.stored && d'.rows == d.rows
            && if Declared(dep, name) then
                 && d'.records == d.records && SwitchWritten(d.table, name, actor, on) == Some(d'.cache)
                 && !Removed(dep, d, name)
               else Recorded(d, name) && d' == d.(records := d.records[name := Record(d.records[name].typ, on)])
  {
    assert name !in d.servers && (Declared(dep, name) || Recorded(d, name));
    if Declared(dep, name) {
      assert SetEnabled(dep, d, actor, name, on, fault) == SwitchDeclared(d, actor, name, on, fault);
      DeclaredSwitchLeaves(d, actor, name, on, fault);
    }
  }

  /** A switch that is done is in force: the instance is as it was, but on or off as asked. */
  lemma SwitchTakesEffect(dep: Deployment, d: Disk, actor: string, name: string, on: bool, fault: Fault)
    requires SetEnabled(dep, d, actor, name, on, fault).1 == Done
    ensures InstanceOf(dep, d, name).Some?
    ensures InstanceOf(dep, SetEnabled(dep, d, actor, name, on, fault).0, name)
            == Some(InstanceOf(dep, d, name).value.(enabled := on))
  {
    SwitchLeaves(dep, d, actor, name, on, fault);
    if Declared(dep, name) { SwitchIsWritten(d.table, name, actor, on); }
  }

  /** No other plugin notices whose override memory has as it is stored. */
  lemma SwitchSparesOthers(dep: Deployment, d: Disk, actor: string, name: string, on: bool, fault: Fault, other: string)
    requires SetEnabled(dep, d, actor, name, on, fault).1 == Done && other != name
    requires Declared(dep, name) ==> Get(d.cache, other) == Get(d.table, other)
    ensures InstanceOf(dep, SetEnabled(dep, d, actor, name, on, fault).0, other) == InstanceOf(dep, d, other)
  {
    var d' := SetEnabled(dep, d, actor, name, on, fault).0;
    SwitchLeaves(dep, d, actor, name, on, fault);
    if Declared(dep, name) { SwitchKeepsOthers(d.table, name, actor, on, other); }
    InstanceFrame(dep, d, d', other);
  }

  lemma SwitchKeepsOthers(table: map<string, Override>, name: string, actor: string, on: bool, other: string)
    requires SwitchWritten(table, name, actor, on).Some? && other != name
    ensures Get(SwitchWritten(table, name, actor, on).value, other) == Get(table, other)
  {
  }

  // ---- Interrupted removals -----------------------------------------------

  /** What a wipe leaves. */
  function Cleared(d: Disk, name: string): Disk {
    Unrowed(Wiped(d, name), name)
  }

  lemma ClearedIsForgotten(d: Disk, name: string)
    ensures Forgotten(Cleared(d, name), name)
  {
  }

  lemma WipedUnchanged(d: Disk, name: string)
    ensures !HasSettings(d, name) ==> Wiped(d, name) == d
    ensures !HasRows(d, name) ==> Unrowed(d, name) == d
  {
    assert !HasSettings(d, name) ==> forall k | k in d.stored :: k.instance != name;
    assert !HasRows(d, name) ==> forall k | k in d.rows :: k.instance != name;
  }

  /** A wipe that went part of the way is finished by the next one. */
  lemma ClearedAgain(d: Disk, name: string)
    ensures Cleared(Wiped(d, name), name) == Cleared(d, name)
    ensures Cleared(Cleared(d, name), name) == Cleared(d, name)
  {
    assert !HasSettings(Wiped(d, name), name) && !HasRows(Cleared(d, name), name);
    WipedUnchanged(Wiped(d, name), name);
    WipedUnchanged(Cleared(d, name), name);
  }

  /** What `Forget` leaves for a declared plugin, fault by fault. */
  lemma ForgetLeaves(d: Disk, name: string, fault: Fault)
    ensures var (d1, r) := Forget(d, name, false, fault);
            if r == Done then d1 == Cleared(d, name) && fault != AtRows
            else d1 == d || d1 == Wiped(d, name)
  {
  }

  /** Where a removal of a declared plugin ends when nothing fails. */
  function Completed(d: Disk, actor: string, name: string, removed: bool): Disk {
    if removed then Cleared(d, name) else
      var table := RemovalWritten(d.table, name, actor);
      Cleared(d, name).(table := table, cache := table)
  }

  lemma DoneIsCompleted(d: Disk, actor: string, name: string, removed: bool, fault: Fault)
    ensures RemoveDeclared(d, actor, name, removed, NoFault) == (Completed(d, actor, name, removed), Done)
    ensures var (d', r) := RemoveDeclared(d, actor, name, removed, fault);
            && (r == Done ==> d' == Completed(d, actor, name, removed))
            && d'.servers == d.servers
  {
    ForgetLeaves(d, name, fault);
  }

  lemma TableMovesLast(d: Disk, actor: string, name: string, removed: bool, fault: Fault)
    ensures var d' := RemoveDeclared(d, actor, name, removed, fault).0;
            d'.table != d.table ==> Forgotten(d', name)
    ensures Forget(d, name, true, fault).0.table == d.table
  {
    ForgetLeaves(d, name, fault);
    ClearedIsForgotten(d, name);
  }

  lemma CompletedIsGone(d: Disk, actor: string, name: string, removed: bool)
    requires removed ==> name in d.cache && d.cache[name].removed
    ensures var d' := Completed(d, actor, name, removed);
            Forgotten(d', name) && name in d'.cache && d'.cache[name].removed && d'.servers == d.servers
  {
    ClearedIsForgotten(d, name);
  }

  /**
   However a removal ends, the removal is recorded only once nothing is stored
   under the name.
   */
  lemma RecordedOnlyWhenForgotten(dep: Deployment, d: Disk, actor: string, name: string, ack: bool, fault: Fault)
    ensures var d' := Remove(dep, d, actor, name, ack, fault).0;
            d'.table != d.table ==> Forgotten(d', name)
  {
    if InstanceOf(dep, d, name).Some? {
      TableMovesLast(d, actor, name, InstanceOf(dep, d, name).value.removed, fault);
    }
  }

  /** What a removed declaration looks like. */
  lemma GoneIsRemoved(dep: Deployment, d: Disk, name: string)
    requires Declared(dep, name) && name !in d.servers && name in d.cache && d.cache[name].removed
    ensures InstanceOf(dep, d, name).Some?
    ensures var i := InstanceOf(dep, d, name).value;
            i.removed && i.runtime == Builtin && (i.fromFile || i.fromDir)
  {
  }

  /** Removing a declared plugin, past its refusals. */
  lemma RemoveOfDeclared(dep: Deployment, d: Disk, actor: string, name: string, ack: bool, fault: Fault)
    requires Declared(dep, name) && name !in d.servers
    ensures InstanceOf(dep, d, name).Some?
    ensures var i := InstanceOf(dep, d, name).value;
            && (i.removed ==> name in d.cache && d.cache[name].removed)
            && Remove(dep, d, actor, name, ack, fault)
               == if i.required && !i.removed && !ack then (d, NeedsAcknowledgement)
                  else RemoveDeclared(d, actor, name, i.removed, fault)
  {
  }

  /** A removal that runs to its end leaves nothing stored under the name and the plugin off. */
  lemma RemovalCompletes(dep: Deployment, d: Disk, actor: string, name: string, ack: bool, fault: Fault)
    requires Remove(dep, d, actor, name, ack, fault).1 == Done
    ensures var d' := Remove(dep, d, actor, name, ack, fault).0;
            && Forgotten(d', name)
            && (InstanceOf(dep, d', name).None? || InstanceOf(dep, d', name).value.removed)
  {
    var i := InstanceOf(dep, d, name).value;
    assert name !in d.servers;
    if Declared(dep, name) {
      RemoveOfDeclared(dep, d, actor, name, ack, fault);
      DoneIsCompleted(d, actor, name, i.removed, fault);
      CompletedIsGone(d, actor, name, i.removed);
      GoneIsRemoved(dep, Completed(d, actor, name, i.removed), name);
    } else {
      UndeclaredRemoval(dep, d, name, fault);
    }
  }

  lemma UndeclaredRemoval(dep: Deployment, d: Disk, name: string, fault: Fault)
    requires !Declared(dep, name) && name !in d.servers && Forget(d, name, true, fault).1 == Done
    ensures var d' := Forget(d, name, true, fault).0;
            Forgotten(d', name) && InstanceOf(dep, d', name).None?
  {
    ClearedIsForgotten(Unrecorded(d, name), name);
  }

  /** Removing after the runs before it were each interrupted somewhere. */
  function AfterRuns(dep: Deployment, d: Disk, actor: string, name: string, ack: bool, faults: seq<Fault>): Disk {
    if faults == [] then d else
      Remove(dep, AfterRuns(dep, d, actor, name, ack, faults[..|faults| - 1]), actor, name, ack, faults[|faults| - 1]).0
  }

  function Finished(dep: Deployment, d: Disk, actor: string, name: string, ack: bool): Disk {
    Remove(dep, d, actor, name, ack, NoFault).0
  }

  /** A removal run again from where a fault left it, while the cache still says what it said. */
  lemma ResumedRemoval(d: Disk, actor: string, name: string, removed: bool, fault: Fault)
    requires RemoveDeclared(d, actor, name, removed, fault).1 != Done
    ensures var d' := RemoveDeclared(d, actor, name, removed, fault).0;
            && RemoveDeclared(d', actor, name, removed, NoFault) == RemoveDeclared(d, actor, name, removed, NoFault)
            && SameDeclaration(d, d', name) && d'.servers == d.servers
  {
    ForgetLeaves(d, name, fault);
    ClearedAgain(d, name);
    var d2 := Cleared(d, name).(table := RemovalWritten(d.table, name, actor));
    assert Cleared(d2, name) == Cleared(Cleared(d, name), name).(table := d2.table);
  }

  /** A finished removal, finished once more. */
  lemma CompletedAgain(d: Disk, actor: string, name: string, removed: bool)
    ensures var d' := Completed(d, actor, name, removed); Completed(d', actor, name, true) == d'
  {
    ClearedAgain(d, name);
    var table := RemovalWritten(d.table, name, actor);
    var d' := Cleared(d, name).(table := table, cache := table);
    assert Cleared(d', name) == Cleared(Cleared(d, name), name).(table := table, cache := table);
  }

  /** One interrupted removal of a declared plugin does not change where the removal ends up. */
  lemma InterruptionIsHarmless(dep: Deployment, d: Disk, actor: string, name: string, ack: bool, fault: Fault)
    requires Declared(dep, name) && name !in d.servers
    ensures Finished(dep, Remove(dep, d, actor, name, ack, fault).0, actor, name, ack)
            == Finished(dep, d, actor, name, ack)
    ensures Remove(dep, d, actor, name, ack, fault).0.servers == d.servers
  {
    RemoveOfDeclared(dep, d, actor, name, ack, fault);
    RemoveOfDeclared(dep, d, actor, name, ack, NoFault);
    var i := InstanceOf(dep, d, name).value;
    if !(i.required && !i.removed && !ack) {
      DoneIsCompleted(d, actor, name, i.removed, fault);
      if RemoveDeclared(d, actor, name, i.removed, fault).1 == Done {
        CompletedIsFinal(dep, d, actor, name, i.removed, ack);
      } else {
        ResumedIsSame(dep, d, actor, name, ack, fault);
      }
    }
  }

  lemma CompletedIsFinal(dep: Deployment, d: Disk, actor: string, name: string, removed: bool, ack: bool)
    requires Declared(dep, name) && name !in d.servers && (removed ==> name in d.cache && d.cache[name].removed)
    ensures var d' := Completed(d, actor, name, removed); Finished(dep, d', actor, name, ack) == d'
  {
    var d' := Completed(d, actor, name, removed);
    CompletedIsGone(d, actor, name, removed);
    GoneIsRemoved(dep, d', name);
    RemoveOfDeclared(dep, d', actor, name, ack, NoFault);
    CompletedAgain(d, actor, name, removed);
    DoneIsCompleted(d', actor, name, true, NoFault);
  }

  lemma ResumedIsSame(dep: Deployment, d: Disk, actor: string, name: string, ack: bool, fault: Fault)
    requires Declared(dep, name) && name !in d.servers && InstanceOf(dep, d, name).Some?
    requires var i := InstanceOf(dep, d, name).value;
             !(i.required && !i.removed && !ack) && RemoveDeclared(d, actor, name, i.removed, fault).1 != Done
    ensures var removed := InstanceOf(dep, d, name).value.removed;
            Finished(dep, RemoveDeclared(d, actor, name, removed, fault).0, actor, name, ack)
            == RemoveDeclared(d, actor, name, removed, NoFault).0
  {
    var removed := InstanceOf(dep, d, name).value.removed;
    var d' := RemoveDeclared(d, actor, name, removed, fault).0;
    ResumedRemoval(d, actor, name, removed, fault);
    InstanceFrame(dep, d, d', name);
    RemoveOfDeclared(dep, d', actor, name, ack, NoFault);
  }

  /**
   Failing anywhere, any number of times, and then removing to the end leaves what
   one uninterrupted removal leaves.
   */
  lemma {:induction false} RetriesConverge(dep: Deployment, d: Disk, actor: string, name: string, ack: bool,
                                           faults: seq<Fault>)
    requires Declared(dep, name) && name !in d.servers
    ensures AfterRuns(dep, d, actor, name, ack, faults).servers == d.servers
    ensures Finished(dep, AfterRuns(dep, d, actor, name, ack, faults), actor, name, ack)
            == Finished(dep, d, actor, name, ack)
  {
    if faults == [] {
    } else {
      var n := |faults| - 1;
      RetriesConverge(dep, d, actor, name, ack, faults[..n]);
      InterruptionIsHarmless(dep, AfterRuns(dep, d, actor, name, ack, faults[..n]), actor, name, ack, faults[n]);
    }
  }

  /** One attempt at a removal: who makes it, and the write that fails. */
  datatype Retry = Retry(actor: string, fault: Fault)

  function AfterAttempts(dep: Deployment, d: Disk, name: string, ack: bool, attempts: seq<Retry>): Disk {
    if attempts == [] then d else
      var last := attempts[|attempts| - 1];
      Remove(dep, AfterAttempts(dep, d, name, ack, attempts[..|attempts| - 1]), last.actor, name, ack, last.fault).0
  }

  function Unsigned(overrides: map<string, Override>, name: string): map<string, Override> {
    if name in overrides then overrides[name := overrides[name].(actor := "")] else overrides
  }

  /** Two states that differ at most in who is recorded for the name. */
  predicate SameButActor(d: Disk, d': Disk, name: string) {
    && d' == d.(table := d'.table, cache := d'.cache)
    && Unsigned(d'.table, name) == Unsigned(d.table, name) && Unsigned(d'.cache, name) == Unsigned(d.cache, name)
  }

  /** Who removes a plugin decides who is recorded, and nothing else. */
  lemma ActorOnlySigns(dep: Deployment, d: Disk, actor: string, actor': string, name: string, ack: bool)
    requires Declared(dep, name) && name !in d.servers
    ensures SameButActor(Finished(dep, d, actor, name, ack), Finished(dep, d, actor', name, ack), name)
  {
    RemoveOfDeclared(dep, d, actor, name, ack, NoFault);
    RemoveOfDeclared(dep, d, actor', name, ack, NoFault);
    var removed := InstanceOf(dep, d, name).value.removed;
    DoneIsCompleted(d, actor, name, removed, NoFault);
    DoneIsCompleted(d, actor', name, removed, NoFault);
    SignaturesOnly(d.table, name, actor, actor');
  }

  lemma SignaturesOnly(table: map<string, Override>, name: string, actor: string, actor': string)
    ensures Unsigned(RemovalWritten(table, name, actor), name) == Unsigned(RemovalWritten(table, name, actor'), name)
  {
  }

  lemma SameThrough(a: Disk, b: Disk, c: Disk, name: string)
    requires SameButActor(a, b, name) && SameButActor(b, c, name)
    ensures SameButActor(a, c, name)
  {
  }

  /** The same when anybody retries: only who is recorded may differ. */
  lemma {:induction false} RetriesByAnyoneConverge(dep: Deployment, d: Disk, actor: string, name: string, ack: bool,
                                                   attempts: seq<Retry>)
    requires Declared(dep, name) && name !in d.servers
    ensures AfterAttempts(dep, d, name, ack, attempts).servers == d.servers
    ensures SameButActor(Finished(dep, AfterAttempts(dep, d, name, ack, attempts), actor, name, ack),
                         Finished(dep, d, actor, name, ack), name)
  {
    if attempts == [] {
    } else {
      var n := |attempts| - 1;
      var before, last := AfterAttempts(dep, d, name, ack, attempts[..n]), attempts[n];
      RetriesByAnyoneConverge(dep, d, actor, name, ack, attempts[..n]);
      AttemptIsHarmless(dep, before, actor, name, ack, last);
      SameThrough(Finished(dep, AfterAttempts(dep, d, name, ack, attempts), actor, name, ack),
                  Finished(dep, before, actor, name, ack), Finished(dep, d, actor, name, ack), name);
    }
  }

  lemma AttemptIsHarmless(dep: Deployment, d: Disk, actor: string, name: string, ack: bool, last: Retry)
    requires Declared(dep, name) && name !in d.servers
    ensures Remove(dep, d, last.actor, name, ack, last.fault).0.servers == d.servers
    ensures SameButActor(Finished(dep, Remove(dep, d, last.actor, name, ack, last.fault).0, actor, name, ack),
                         Finished(dep, d, actor, name, ack), name)
  {
    var d' := Remove(dep, d, last.actor, name, ack, last.fault).0;
    InterruptionIsHarmless(dep, d, last.actor, name, ack, last.fault);
    ActorOnlySigns(dep, d', actor, last.actor, name, ack);
    ActorOnlySigns(dep, d, last.actor, actor, name, ack);
    SameThrough(Finished(dep, d', actor, name, ack), Finished(dep, d, last.actor, name, ack),
                Finished(dep, d, actor, name, ack), name);
  }

  /** A plugin the dashboard added: recorded, and declared nowhere else. */
  predicate DashboardOnly(dep: Deployment, d: Disk, name: string) {
    name !in d.servers && !Declared(dep, name) && Recorded(d, name)
  }

  /**
   A dashboard-added plugin's record goes in the first write, so a removal that then
   fails to delete its rows cannot be retried. An interruption is harmless exactly
   when it is not that one, or there are no rows.
   */
  lemma DashboardRetryExactly(dep: Deployment, d: Disk, actor: string, name: string, ack: bool, fault: Fault)
    requires DashboardOnly(dep, d, name)
    ensures Finished(dep, Remove(dep, d, actor, name, ack, fault).0, actor, name, ack)
            == Finished(dep, d, actor, name, ack)
            <==> !(fault == AtRows && HasRows(d, name))
  {
    var d1 := Wiped(Unrecorded(d, name), name);
    WipedUnchanged(d1, name);
    assert Finished(dep, d, actor, name, ack) == Unrowed(d1, name);
    if fault == AtRows {
      assert InstanceOf(dep, d1, name).None?;
      if HasRows(d, name) {
        var k :| k in d.rows && k.instance == name;
        assert k in d1.rows && k !in Unrowed(d1, name).rows;
      }
    } else if fault == AtSettings {
    } else {
      assert InstanceOf(dep, Unrowed(d1, name), name).None?;
    }
  }

  /** The rows such a removal leaves behind belong to the next plugin given the name. */
  lemma OrphanedRowsAreInherited(dep: Deployment, d: Disk, actor: string, name: string, ack: bool, typ: string)
    requires DashboardOnly(dep, d, name) && HasRows(d, name) && typ in dep.types
    ensures var broken := Remove(dep, d, actor, name, ack, AtRows).0;
            && Remove(dep, broken, actor, name, ack, NoFault) == (broken, NoSuchPlugin)
            && Add(dep, broken, name, typ, NoFault).1 == Done
            && forall k | k in d.rows && k.instance == name ::
                 k in Add(dep, broken, name, typ, NoFault).0.rows
                 && Add(dep, broken, name, typ, NoFault).0.rows[k] == d.rows[k]
  {
  }

  // ---- Restores, and their retries ----------------------------------------

  /**
   A restore that failed and is made again ends where one that did not fail ends,
   unless it was the reload that failed: the retry is told there is nothing to restore
   and reads nothing back. Then it does only if memory happened to agree already.
   */
  lemma RestoreRetryExactly(d: Disk, actor: string, name: string, fault: Fault)
    ensures var written := RestoreWritten(d.table, name, actor);
            Restore(Restore(d, actor, name, fault).0, actor, name, NoFault).0 == Restore(d, actor, name, NoFault).0
            <==> written.None? || fault != AtReload || d.cache == written.value
  {
    var written := RestoreWritten(d.table, name, actor);
    if written.Some? { assert RestoreWritten(written.value, name, actor).None?; }
  }

  /** A switch saved once is saved. */
  lemma SwitchWrittenTwice(table: map<string, Override>, name: string, actor: string, on: bool)
    requires SwitchWritten(table, name, actor, on).Some?
    ensures var t := SwitchWritten(table, name, actor, on).value; SwitchWritten(t, name, actor, on) == Some(t)
  {
  }

  lemma DeclaredSwitchRetry(d: Disk, actor: string, name: string, on: bool, fault: Fault)
    ensures SwitchDeclared(SwitchDeclared(d, actor, name, on, fault).0, actor, name, on, NoFault).0
            == SwitchDeclared(d, actor, name, on, NoFault).0
    ensures var d' := SwitchDeclared(d, actor, name, on, fault).0;
            && d' == d.(table := d'.table, cache := d'.cache)
            && (d'.cache == d.cache || (name in d'.cache && !d'.cache[name].removed))
  {
    if SwitchWritten(d.table, name, actor, on).Some? { SwitchWrittenTwice(d.table, name, actor, on); }
  }

  lemma SwitchOfDeclared(dep: Deployment, d: Disk, actor: string, name: string, on: bool, fault: Fault)
    requires Declared(dep, name) && name !in d.servers
    ensures SetEnabled(dep, d, actor, name, on, fault)
            == if Removed(dep, d, name) then (d, IsRemoved) else SwitchDeclared(d, actor, name, on, fault)
  {
  }

  /** A switch of a declared plugin that failed anywhere is finished by making it again: its reload is not lost. */
  lemma SwitchRetryConverges(dep: Deployment, d: Disk, actor: string, name: string, on: bool, fault: Fault)
    requires Declared(dep, name) && name !in d.servers
    ensures SetEnabled(dep, SetEnabled(dep, d, actor, name, on, fault).0, actor, name, on, NoFault).0
            == SetEnabled(dep, d, actor, name, on, NoFault).0
  {
    SwitchOfDeclared(dep, d, actor, name, on, fault);
    SwitchOfDeclared(dep, d, actor, name, on, NoFault);
    DeclaredSwitchRetry(d, actor, name, on, fault);
    SwitchOfDeclared(dep, SetEnabled(dep, d, actor, name, on, fault).0, actor, name, on, NoFault);
  }

  // ---- Removing and restoring ---------------------------------------------

  /** One instance's part of a map, by field. */
  function ByField<V>(m: map<PluginKey, V>, name: string): map<string, V> {
    map k | k in m && k.instance == name :: k.field := m[k]
  }

  /** The inputs one instance's settings are resolved from. */
  function InputsOf(dep: Deployment, d: Disk, name: string): Inputs {
    Inputs(if name in dep.file then dep.file[name].settings else map[],
           ByField(d.stored, name), ByField(d.rows, name), dep.readers)
  }

  /** The instance as the file and the directory declare it, with nothing laid over. */
  function AsDeclared(dep: Deployment, d: Disk, name: string): Option<Instance> {
    InstanceOf(dep, d.(cache := d.cache - {name}), name)
  }

  /** What is left of a plugin that was removed and then restored. */
  function RoundTrip(dep: Deployment, d: Disk, actor: string, name: string): Disk {
    Restore(Finished(dep, d, actor, name, true), actor, name, NoFault).0
  }

  /** Its settings are those of an empty store: the file's values and the defaults, rows included. */
  lemma RestoredSettingsAreTheFiles(dep: Deployment, d: Disk, actor: string, name: string, fields: seq<Field>)
    requires name in dep.file && name !in d.servers
    ensures var d' := RoundTrip(dep, d, actor, name);
            && InputsOf(dep, d', name) == Inputs(dep.file[name].settings, map[], map[], dep.readers)
            && Resolved(InputsOf(dep, d', name), fields)
               == Resolved(Inputs(dep.file[name].settings, map[], map[], dep.readers), fields)
  {
    RoundTripKeeps(dep, d, actor, name);
    NothingToResolve(dep, RoundTrip(dep, d, actor, name), name);
  }

  lemma RestoreKeeps(d: Disk, actor: string, name: string)
    ensures var d' := Restore(d, actor, name, NoFault).0;
            && d'.stored == d.stored && d'.rows == d.rows && d'.servers == d.servers && d'.records == d.records
            && (RestoreWritten(d.table, name, actor).Some? ==>
                  d'.cache == RestoreWritten(d.table, name, actor).value)
  {
  }

  /** Restoring undoes a removal recorded now or before, but for an on-off switch, which stays. */
  lemma TableRoundTrip(table: map<string, Override>, name: string, actor: string)
    ensures var gone := RemovalWritten(table, name, actor);
            RestoreWritten(gone, name, actor) == Some(RoundTripTable(table, name, actor))
    ensures name in table && table[name].removed ==> RemovalWritten(table, name, actor) == table
  {
    var gone := RemovalWritten(table, name, actor);
    assert RestoreWritten(gone, name, actor).value == RoundTripTable(table, name, actor);
  }

  /** Memory still says removed, and the stored override does not: a restore whose reload failed. */
  predicate RestoreUnread(dep: Deployment, d: Disk, name: string) {
    Removed(dep, d, name) && !(name in d.table && d.table[name].removed)
  }

  /** What the removal and the restore leave of the name. */
  lemma RoundTripKeeps(dep: Deployment, d: Disk, actor: string, name: string)
    requires Declared(dep, name) && name !in d.servers
    ensures Forgotten(RoundTrip(dep, d, actor, name), name)
    ensures var d' := RoundTrip(dep, d, actor, name);
            && d'.servers == d.servers && d'.records == d.records
            && d'.cache == if RestoreUnread(dep, d, name) then d.cache else RoundTripTable(d.table, name, actor)
  {
    RemoveOfDeclared(dep, d, actor, name, true, NoFault);
    var removed := InstanceOf(dep, d, name).value.removed;
    DoneIsCompleted(d, actor, name, removed, NoFault);
    CompletedIsGone(d, actor, name, removed);
    RestoreKeeps(Completed(d, actor, name, removed), actor, name);
    TableRoundTrip(d.table, name, actor);
  }

  /** The overrides a removal and a restore leave: an on-off switch of the name survives both. */
  function RoundTripTable(table: map<string, Override>, name: string, actor: string): map<string, Override> {
    if name in table && table[name].enabled.Some? then table[name := Override(false, table[name].enabled, actor)]
    else table - {name}
  }

  lemma NothingToResolve(dep: Deployment, d: Disk, name: string)
    requires name in dep.file && Forgotten(d, name)
    ensures InputsOf(dep, d, name) == Inputs(dep.file[name].settings, map[], map[], dep.readers)
  {
    assert forall k | k in d.stored :: k.instance != name;
    assert forall k | k in d.rows :: k.instance != name;
  }

  /** The on-off switch somebody set in the dashboard, if any, says what is said without it. */
  predicate SwitchAgrees(dep: Deployment, d: Disk, name: string) {
    name in d.table && d.table[name].enabled.Some? ==> d.table[name].enabled.value == BaseEnabled(dep, d, name)
  }

  lemma SwitchDecides(dep: Deployment, d: Disk, d': Disk, actor: string, name: string)
    requires Declared(dep, name) && name !in d.servers
    requires d'.servers == d.servers && d'.records == d.records
    requires d'.cache == RoundTripTable(d.table, name, actor)
    ensures InstanceOf(dep, d', name) == AsDeclared(dep, d, name) <==> SwitchAgrees(dep, d, name)
  {
  }

  /** While memory says removed, the plugin is not as declared. */
  lemma StaysRemoved(dep: Deployment, d: Disk, d': Disk, name: string)
    requires Removed(dep, d, name) && name !in d.servers && d'.servers == d.servers && d'.cache == d.cache
    ensures InstanceOf(dep, d', name).Some? && InstanceOf(dep, d', name).value.removed
    ensures AsDeclared(dep, d, name).Some? && !AsDeclared(dep, d, name).value.removed
  {
  }

  /**
   A removal keeps the on-off switch the dashboard recorded, and a restore brings it
   back; and a restore that finds nothing to restore does not read the overrides again.
   A declared plugin therefore comes back exactly as it is declared precisely when that
   switch was never set, or says nothing else, and memory is not behind an earlier
   restore.
   */
  lemma RestoredAsDeclaredExactly(dep: Deployment, d: Disk, actor: string, name: string)
    requires Declared(dep, name) && name !in d.servers
    ensures var d' := RoundTrip(dep, d, actor, name);
            InstanceOf(dep, d', name) == AsDeclared(dep, d, name)
            <==> SwitchAgrees(dep, d, name) && !RestoreUnread(dep, d, name)
  {
    RoundTripKeeps(dep, d, actor, name);
    if RestoreUnread(dep, d, name) {
      StaysRemoved(dep, d, RoundTrip(dep, d, actor, name), name);
    } else {
      SwitchDecides(dep, d, RoundTrip(dep, d, actor, name), actor, name);
    }
  }

  /** A plugin restored while the reload failed stays removed, however often it is removed and restored. */
  lemma UnreadRestoreStaysRemoved(dep: Deployment, d: Disk, actor: string, name: string)
    requires name in dep.file && d.servers == map[] && d.table == map[]
    requires d.cache == map[name := Override(true, None, actor)]
    ensures var d' := RoundTrip(dep, d, actor, name);
            && SwitchAgrees(dep, d, name)
            && InstanceOf(dep, d', name).Some? && InstanceOf(dep, d', name).value.removed
  {
    RoundTripKeeps(dep, d, actor, name);
    StaysRemoved(dep, d, RoundTrip(dep, d, actor, name), name);
  }

  /** A plugin switched off, removed and restored comes back off, though its file says on. */
  lemma RestoreKeepsTheSwitch(dep: Deployment, actor: string)
    requires dep.file == map["graylog" := FileEntry("", true, false, map[])] && dep.dirs == map[]
    ensures var d := Disk(map[], map[], map[], map["graylog" := Override(false, Some(false), actor)],
                          map["graylog" := Override(false, Some(false), actor)], map[]);
            var d' := RoundTrip(dep, d, actor, "graylog");
            InstanceOf(dep, d', "graylog").Some? && !InstanceOf(dep, d', "graylog").value.enabled
  {
  }
}
