/** The plugin instances a host is configured with, from every place one can be declared. */
module Instances {
  import opened Wrappers
  import opened Text
  import opened Maps
  import opened Sorting
  import opened PluginSettings

  // ---- Where instances are declared ---------------------------------------

  /** What the configuration file says about a plugin. */
  datatype FileEntry = FileEntry(typ: string, enabled: bool, required: bool, settings: map<string, Value>)

  /** What the dashboard recorded, or a record this build cannot read. */
  datatype Record = Record(typ: string, enabled: bool) | Unreadable

  /** What the dashboard says about a declaration it cannot edit. */
  datatype Override = Override(removed: bool, enabled: Option<bool>, actor: string)

  /** A remote server: whether it is on, the settings it asks for, and its enabled tools. */
  datatype Server = Server(enabled: bool, fields: Option<seq<Field>>, tools: seq<string>)

  /** plugins.<instance>.<field> */
  datatype PluginKey = PluginKey(instance: string, field: string)

  /** What a running host cannot change: the plugins directory, the file, and the types it has. */
  datatype Deployment = Deployment(
    dirs: map<string, bool>, file: map<string, FileEntry>, types: map<string, seq<Field>>, readers: Readers)

  /**
   What it can: stored settings and table rows, dashboard records, overrides as
   stored and as last read into memory, and remote servers.
   */
  datatype Disk = Disk(
    stored: map<PluginKey, string>, rows: map<PluginKey, seq<Row>>, records: map<string, Record>,
    table: map<string, Override>, cache: map<string, Override>, servers: map<string, Server>)

  datatype Runtime = Builtin | Remote

  datatype Instance = Instance(
    name: string, typ: string, runtime: Runtime, fromFile: bool, fromDir: bool,
    enabled: bool, required: bool, removed: bool, removedBy: string, storedSettings: bool)

  const REMOTE_TYPE: string := "mcp"

  predicate Lower(c: char) { 'a' <= c <= 'z' }

  predicate Digit(c: char) { '0' <= c <= '9' }

  /** ^[a-z][a-z0-9_-]{1,31}$ */
  predicate NameOk(name: string) {
    && 2 <= |name| <= 32 && Lower(name[0])
    && forall i | 1 <= i < |name| :: Lower(name[i]) || Digit(name[i]) || name[i] == '_' || name[i] == '-'
  }

  function ResolvedType(e: FileEntry, name: string): string {
    if Trim(e.typ) != "" then Trim(e.typ) else name
  }

  predicate HasSettings(d: Disk, name: string) {
    exists k | k in d.stored :: k.instance == name
  }

  predicate Declared(dep: Deployment, name: string) {
    name in dep.file || name in dep.dirs
  }

  // ---- Precedence, stated per name ----------------------------------------

  /** A dashboard record counts when its name is proper and it can be read. */
  predicate Recorded(d: Disk, name: string) {
    name in d.records && NameOk(name) && d.records[name].Record?
  }

  predicate DeclaredRequired(dep: Deployment, name: string) {
    (name in dep.file && dep.file[name].required) || (name in dep.dirs && dep.dirs[name])
  }

  /** On or off before any override: the record, else the file, else on. */
  function BaseEnabled(dep: Deployment, d: Disk, name: string): bool {
    if Recorded(d, name) then d.records[name].enabled
    else if name in dep.file then dep.file[name].enabled
    else true
  }

  function TypeOf(dep: Deployment, d: Disk, name: string): string {
    if Recorded(d, name) then d.records[name].typ
    else if name in dep.file then ResolvedType(dep.file[name], name)
    else name
  }

  predicate Removed(dep: Deployment, d: Disk, name: string) {
    Declared(dep, name) && name in d.cache && d.cache[name].removed
  }

  function EnabledAfter(dep: Deployment, d: Disk, name: string): bool {
    if !(Declared(dep, name) && name in d.cache) then BaseEnabled(dep, d, name)
    else if d.cache[name].removed then false
    else if d.cache[name].enabled.Some? then d.cache[name].enabled.value
    else BaseEnabled(dep, d, name)
  }

  /** The instance a name stands for: a remote server, else a declaration under its overrides. */
  function InstanceOf(dep: Deployment, d: Disk, name: string): (r: Option<Instance>)
    ensures r.Some? ==> r.value.name == name
  {
    if name in d.servers then
      Some(Instance(name, REMOTE_TYPE, Remote, false, false, d.servers[name].enabled, false, false, "", false))
    else if !Declared(dep, name) && !Recorded(d, name) then None
    else
      var gone := Removed(dep, d, name);
      Some(Instance(name, TypeOf(dep, d, name), Builtin, name in dep.file, name in dep.dirs,
                    EnabledAfter(dep, d, name), DeclaredRequired(dep, name),
                    gone, if gone then d.cache[name].actor else "", gone && HasSettings(d, name)))
  }

  /** Two disks say the same about one name, its stored values apart. */
  predicate SameDeclaration(d: Disk, d': Disk, name: string) {
    && (name in d.servers <==> name in d'.servers) && (name in d.servers ==> d.servers[name] == d'.servers[name])
    && (name in d.records <==> name in d'.records) && (name in d.records ==> d.records[name] == d'.records[name])
    && (name in d.cache <==> name in d'.cache) && (name in d.cache ==> d.cache[name] == d'.cache[name])
  }

  /** An instance depends on nothing else but whether a removed name still holds values. */
  lemma InstanceFrame(dep: Deployment, d: Disk, d': Disk, name: string)
    requires SameDeclaration(d, d', name)
    ensures InstanceOf(dep, d, name).None? <==> InstanceOf(dep, d', name).None?
    ensures InstanceOf(dep, d, name).Some? ==>
              InstanceOf(dep, d', name).value
              == InstanceOf(dep, d, name).value.(storedSettings := InstanceOf(dep, d', name).value.storedSettings)
  {
  }

  /** A proper name, letter by letter. */
  lemma NameOkExactly(name: string)
    ensures NameOk(name)
            <==> && 2 <= |name| <= 32 && name[0] in "abcdefghijklmnopqrstuvwxyz"
                 && forall i | 1 <= i < |name| :: name[i] in "abcdefghijklmnopqrstuvwxyz0123456789_-"
  {
    forall c: char ensures Lower(c) <==> c in "abcdefghijklmnopqrstuvwxyz" { LowerExactly(c); }
    forall c: char
      ensures Lower(c) || Digit(c) || c == '_' || c == '-' <==> c in "abcdefghijklmnopqrstuvwxyz0123456789_-"
    {
      NameCharExactly(c);
    }
  }

  lemma LowerExactly(c: char)
    ensures Lower(c) <==> c in "abcdefghijklmnopqrstuvwxyz"
  {
    var s := "abcdefghijklmnopqrstuvwxyz";
    assert forall i | 0 <= i < 26 :: s[i] as int == 'a' as int + i;
    if Lower(c) { assert s[c as int - 'a' as int] == c; }
  }

  lemma NameCharExactly(c: char)
    ensures Lower(c) || Digit(c) || c == '_' || c == '-' <==> c in "abcdefghijklmnopqrstuvwxyz0123456789_-"
  {
    var s, lower, digits := "abcdefghijklmnopqrstuvwxyz0123456789_-", "abcdefghijklmnopqrstuvwxyz", "0123456789";
    assert s == lower + digits + "_-";
    LowerExactly(c);
    assert forall i | 0 <= i < 10 :: digits[i] as int == '0' as int + i;
    if Digit(c) { assert digits[c as int - '0' as int] == c; }
  }

  /** The type of a file entry: what it says, white space around it apart, or else the plugin's own name. */
  lemma FileTypeExactly(e: FileEntry, name: string) returns (left: string, right: string)
    ensures Blank(e.typ) ==> ResolvedType(e, name) == name
    ensures !Blank(e.typ) ==> e.typ == left + ResolvedType(e, name) + right && Blank(left) && Blank(right)
    ensures !Blank(e.typ) ==> Trimmed(ResolvedType(e, name))
  {
    TrimsToNothing(e.typ);
    left, right := TrimTakes(e.typ);
  }

  /**
   Where an instance's type comes from, what a remote server's is, and when a removed
   one is said to hold settings still.
   */
  lemma InstanceDetails(dep: Deployment, d: Disk, name: string)
    requires InstanceOf(dep, d, name).Some?
    ensures var i := InstanceOf(dep, d, name).value;
            && (name in d.servers ==>
                  i == Instance(name, "mcp", Remote, false, false, d.servers[name].enabled, false, false, "", false))
            && (name !in d.servers ==>
                  && i.runtime == Builtin && i.fromFile == (name in dep.file) && i.fromDir == (name in dep.dirs)
                  && i.typ == (if name in d.records && NameOk(name) && d.records[name].Record? then d.records[name].typ
                               else if name in dep.file then ResolvedType(dep.file[name], name) else name)
                  && (i.storedSettings <==> i.removed && exists field :: PluginKey(name, field) in d.stored)
                  && i.removedBy == (if i.removed then d.cache[name].actor else ""))
  {
    if k :| k in d.stored && k.instance == name { assert PluginKey(name, k.field) in d.stored; }
  }

  // ---- The layers, one over the other -------------------------------------

  function OverDirs(dep: Deployment, name: string): Option<Instance> {
    if name in dep.dirs
    then Some(Instance(name, name, Builtin, false, true, true, dep.dirs[name], false, "", false)) else None
  }

  function OverFile(dep: Deployment, name: string, under: Option<Instance>): Option<Instance> {
    if name !in dep.file then under else
      var e := dep.file[name];
      Some(Instance(name, ResolvedType(e, name), Builtin, true, under.Some? && under.value.fromDir,
                    e.enabled, e.required || (under.Some? && under.value.required), false, "", false))
  }

  function OverRecord(d: Disk, name: string, under: Option<Instance>): Option<Instance> {
    if !Recorded(d, name) then under else
      var r := d.records[name];
      Some(Instance(name, r.typ, Builtin, under.Some? && under.value.fromFile, under.Some? && under.value.fromDir,
                    r.enabled, under.Some? && under.value.required, false, "", false))
  }

  function OverOverride(d: Disk, name: string, under: Option<Instance>): Option<Instance> {
    if name !in d.cache || under.None? || !(under.value.fromFile || under.value.fromDir) then under else
      var ov := d.cache[name];
      if ov.removed then
        Some(under.value.(removed := true, removedBy := ov.actor, enabled := false,
                          storedSettings := HasSettings(d, name)))
      else if ov.enabled.Some? then Some(under.value.(enabled := ov.enabled.value))
      else under
  }

  function OverServer(d: Disk, name: string, under: Option<Instance>): Option<Instance> {
    if name !in d.servers then under else
      Some(Instance(name, REMOTE_TYPE, Remote, false, false, d.servers[name].enabled, false, false, "", false))
  }

  /** A name's declarations: the file's entry over the directory's. */
  function LayeredDeclaration(dep: Deployment, name: string): Option<Instance> {
    OverFile(dep, name, OverDirs(dep, name))
  }

  /** All five sources, one over the other. */
  function Layered(dep: Deployment, d: Disk, name: string): Option<Instance> {
    OverServer(d, name, OverOverride(d, name, OverRecord(d, name, LayeredDeclaration(dep, name))))
  }

  /** Laying the sources over one another is the precedence, name by name. */
  lemma LayersArePrecedence(dep: Deployment, d: Disk, name: string)
    ensures Layered(dep, d, name) == InstanceOf(dep, d, name)
  {
  }

  method LayDirs(dep: Deployment) returns (out: map<string, Instance>)
    ensures forall name :: Get(out, name) == OverDirs(dep, name)
  {
    out := map[];
    var names := dep.dirs.Keys;
    while names != {}
      invariant names <= dep.dirs.Keys
      invariant forall name :: Get(out, name) == if name in names then None else OverDirs(dep, name)
      decreases names
    {
      var name :| name in names;
      names := names - {name};
      out := out[name := OverDirs(dep, name).value];
    }
  }

  method LayFile(dep: Deployment, under: map<string, Instance>) returns (out: map<string, Instance>)
    ensures forall name :: Get(out, name) == OverFile(dep, name, Get(under, name))
  {
    out := under;
    var names := dep.file.Keys;
    while names != {}
      invariant names <= dep.file.Keys
      invariant forall name ::
        Get(out, name) == if name in names then Get(under, name) else OverFile(dep, name, Get(under, name))
      decreases names
    {
      var name :| name in names;
      names := names - {name};
      out := out[name := OverFile(dep, name, Get(out, name)).value];
    }
  }

  method LayRecords(d: Disk, under: map<string, Instance>) returns (out: map<string, Instance>)
    ensures forall name :: Get(out, name) == OverRecord(d, name, Get(under, name))
  {
    out := under;
    var names := d.records.Keys;
    while names != {}
      invariant names <= d.records.Keys
      invariant forall name ::
        Get(out, name) == if name in names then Get(under, name) else OverRecord(d, name, Get(under, name))
      decreases names
    {
      var name :| name in names;
      names := names - {name};
      if !NameOk(name) { continue; }
      if d.records[name].Unreadable? { continue; }
      out := out[name := OverRecord(d, name, Get(out, name)).value];
    }
  }

  method LayOverrides(d: Disk, under: map<string, Instance>) returns (out: map<string, Instance>)
    ensures forall name :: Get(out, name) == OverOverride(d, name, Get(under, name))
  {
    out := under;
    var names := d.cache.Keys;
    while names != {}
      invariant names <= d.cache.Keys
      invariant forall name ::
        Get(out, name) == if name in names then Get(under, name) else OverOverride(d, name, Get(under, name))
      decreases names
    {
      var name :| name in names;
      names := names - {name};
      if name !in out || !(out[name].fromFile || out[name].fromDir) { continue; }
      out := out[name := OverOverride(d, name, Get(out, name)).value];
    }
  }

  method LayServers(d: Disk, under: map<string, Instance>) returns (out: map<string, Instance>)
    ensures forall name :: Get(out, name) == OverServer(d, name, Get(under, name))
  {
    out := under;
    var names := d.servers.Keys;
    while names != {}
      invariant names <= d.servers.Keys
      invariant forall name ::
        Get(out, name) == if name in names then Get(under, name) else OverServer(d, name, Get(under, name))
      decreases names
    {
      var name :| name in names;
      names := names - {name};
      out := out[name := OverServer(d, name, Get(out, name)).value];
    }
  }

  function InstanceKey(i: Instance): string {
    i.name
  }

  /**
   Every configured instance. Whatever order the maps are walked in, the list is
   sorted, holds each name once, and holds exactly what precedence says of it.
   */
  method ListInstances(dep: Deployment, d: Disk) returns (out: seq<Instance>)
    ensures Sorted(InstanceKey, out)
    ensures forall i :: i in out <==> InstanceOf(dep, d, i.name) == Some(i)
  {
    var dirs := LayDirs(dep);
    var file := LayFile(dep, dirs);
    var records := LayRecords(d, file);
    var overrides := LayOverrides(d, records);
    var byName := LayServers(d, overrides);
    forall name ensures Get(byName, name) == InstanceOf(dep, d, name) {
      LayersArePrecedence(dep, d, name);
      assert Get(dirs, name) == OverDirs(dep, name);
      assert Get(file, name) == OverFile(dep, name, Get(dirs, name));
      assert Get(records, name) == OverRecord(d, name, Get(file, name));
      assert Get(overrides, name) == OverOverride(d, name, Get(records, name));
    }
    out := ListByName(dep, d, byName);
  }

  method ListByName(dep: Deployment, d: Disk, byName: map<string, Instance>) returns (out: seq<Instance>)
    requires forall name :: Get(byName, name) == InstanceOf(dep, d, name)
    ensures Sorted(InstanceKey, out)
    ensures forall i :: i in out <==> InstanceOf(dep, d, i.name) == Some(i)
  {
    var found: seq<Instance> := [];
    var names := byName.Keys;
    while names != {}
      invariant names <= byName.Keys
      invariant forall i :: i in found <==> Get(byName, i.name) == Some(i) && i.name !in names
      invariant forall i, j | 0 <= i < j < |found| :: found[i].name != found[j].name
      decreases names
    {
      var name :| name in names;
      names := names - {name};
      assert Get(byName, name) == InstanceOf(dep, d, name) == Some(byName[name]);
      forall i | 0 <= i < |found| ensures found[i].name != name { assert found[i] in found; }
      found := found + [byName[name]];
    }
    out := SortByKey(InstanceKey, found);
    forall i ensures i in out <==> InstanceOf(dep, d, i.name) == Some(i) {
      assert i in out <==> i in Elements(out);
      assert Get(byName, i.name) == InstanceOf(dep, d, i.name);
    }
  }

  /** The instance of one name, looked for in the list. */
  method FindInstance(dep: Deployment, d: Disk, name: string) returns (r: Option<Instance>)
    ensures r == InstanceOf(dep, d, name)
  {
    var all := ListInstances(dep, d);
    assert InstanceOf(dep, d, name).Some? ==> InstanceOf(dep, d, name).value in all;
    for i := 0 to |all|
      invariant forall j | 0 <= j < i :: all[j].name != name
    {
      if all[i].name == name {
        assert all[i] in all;
        return Some(all[i]);
      }
    }
    assert forall i | i in all :: i.name != name;
    return None;
  }

  // ---- What an instance can be --------------------------------------------

  /** Something removed is off, and was declared where the dashboard cannot edit it. */
  lemma RemovedIsOff(dep: Deployment, d: Disk, name: string)
    requires InstanceOf(dep, d, name).Some? && InstanceOf(dep, d, name).value.removed
    ensures var i := InstanceOf(dep, d, name).value;
            !i.enabled && (i.fromFile || i.fromDir) && i.runtime == Builtin && name in d.cache
  {
  }

  /** Neither a record nor an override touches whether a name is required. */
  lemma DashboardKeepsRequired(d: Disk, name: string, under: Option<Instance>)
    ensures var over := OverOverride(d, name, OverRecord(d, name, under));
            over.Some? ==> (over.value.required <==> under.Some? && under.value.required)
  {
  }

  /**
   Whatever the dashboard records or overrides, an instance is required exactly when
   the declarations of its name alone make it so, unless a remote server has the name.
   */
  lemma RequiredSurvives(dep: Deployment, d: Disk, name: string)
    requires Layered(dep, d, name).Some?
    ensures var declared := LayeredDeclaration(dep, name);
            Layered(dep, d, name).value.required
            <==> name !in d.servers && declared.Some? && declared.value.required
  {
    DashboardKeepsRequired(d, name, LayeredDeclaration(dep, name));
  }

  /** An override of a name nothing declares changes nothing. */
  lemma UndeclaredOverrideIsInert(dep: Deployment, d: Disk, name: string, ov: Override, other: string)
    requires !Declared(dep, name)
    ensures InstanceOf(dep, d.(cache := d.cache[name := ov]), other) == InstanceOf(dep, d, other)
  {
  }

  datatype Stale = Stale(name: string, override: Override)

  function StaleKey(s: Stale): string {
    s.name
  }

  /** The removals that no live instance answers to. */
  method StaleRemovals(dep: Deployment, d: Disk) returns (out: seq<Stale>)
    ensures Sorted(StaleKey, out)
    ensures forall s :: s in out <==>
              && s.name in d.cache && d.cache[s.name] == s.override && s.override.removed
              && InstanceOf(dep, d, s.name) == None
  {
    var all := ListInstances(dep, d);
    var live := set i | i in all :: i.name;
    var found: seq<Stale> := [];
    var names := d.cache.Keys;
    while names != {}
      invariant names <= d.cache.Keys
      invariant forall s :: s in found <==>
        && s.name in d.cache && s.name !in names && d.cache[s.name] == s.override && s.override.removed
        && s.name !in live
      invariant forall i, j | 0 <= i < j < |found| :: found[i].name != found[j].name
      decreases names
    {
      var name :| name in names;
      names := names - {name};
      if !d.cache[name].removed { continue; }
      if name in live { continue; }
      forall i | 0 <= i < |found| ensures found[i].name != name { assert found[i] in found; }
      found := found + [Stale(name, d.cache[name])];
    }
    out := SortByKey(StaleKey, found);
    forall s: Stale ensures s.name in live <==> InstanceOf(dep, d, s.name).Some? {
      if InstanceOf(dep, d, s.name).Some? { assert InstanceOf(dep, d, s.name).value in all; }
    }
    forall s ensures s in out <==> s in found { assert s in out <==> s in Elements(out); }
  }
}
