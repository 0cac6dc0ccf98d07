/** Keeping what is mounted in line with what is configured, without a restart. */
module Reconcile {
  import opened Wrappers
  import opened Text
  import opened Maps
  import opened Sorting
  import opened PluginSettings
  import opened Instances
  import opened Lifecycle

  // ---- What should be mounted ---------------------------------------------

  /** A plugin as it was built: everything it captured when it was. */
  datatype Built = Built(
    typ: string, runtime: Runtime, values: map<string, Value>, purpose: string, trust: string, server: Option<Server>)

  const PURPOSE: string := "purpose"

  function FieldsFor(dep: Deployment, d: Disk, i: Instance): Option<seq<Field>> {
    if i.runtime == Remote then
      (if i.name in d.servers then d.servers[i.name].fields else None)
    else Get(dep.types, i.typ)
  }

  function Purpose(d: Disk, name: string): string {
    if PluginKey(name, PURPOSE) in d.stored then d.stored[PluginKey(name, PURPOSE)] else ""
  }

  /** A remote server needs at least one tool enabled. */
  predicate HasTools(d: Disk, i: Instance) {
    i.runtime == Remote ==> i.name in d.servers && d.servers[i.name].tools != []
  }

  /** An instance's values, if it has everything it needs to run. */
  function Ready(dep: Deployment, d: Disk, i: Instance): Option<map<string, Value>> {
    match FieldsFor(dep, d, i)
    case None => None
    case Some(fields) =>
      match Resolved(InputsOf(dep, d, i.name), fields)
      case Err(_) => None
      case Ok(values) => if Complete(fields, values) && HasTools(d, i) then Some(values) else None
  }

  /** A value that fills a field: a text that is not blank, a list or table that is not empty, or anything else. */
  predicate Fills(v: Value) {
    match v
    case Str(t) => exists i | 0 <= i < |t| :: !IsSpace(t[i])
    case Rows(rows) => |rows| > 0
    case Items(items) => |items| > 0
    case _ => true
  }

  lemma FillsIsNotEmpty(v: Value)
    ensures Fills(v) <==> !IsEmpty(v)
  {
    if v.Str? { TrimsToNothing(v.text); }
  }

  /**
   An instance is ready exactly when its fields are known and resolve, every required
   one resolves to something that fills it, and a remote server has a tool; and then it
   is ready with the resolved values.
   */
  lemma ReadyExactly(dep: Deployment, d: Disk, i: Instance, values: map<string, Value>)
    ensures var fields := if i.runtime == Remote
                          then (if i.name in d.servers then d.servers[i.name].fields else None)
                          else (if i.typ in dep.types then Some(dep.types[i.typ]) else None);
            Ready(dep, d, i) == Some(values)
            <==> && fields.Some? && Resolved(InputsOf(dep, d, i.name), fields.value) == Ok(values)
                 && (forall f | f in fields.value && f.required :: f.key in values && Fills(values[f.key]))
                 && (i.runtime == Remote ==> |d.servers[i.name].tools| > 0)
  {
    forall v ensures Fills(v) <==> !IsEmpty(v) { FillsIsNotEmpty(v); }
  }

  /** What the configuration asks to have mounted under a name. */
  function Wanted(dep: Deployment, d: Disk, trust: string, name: string): Option<Built> {
    match InstanceOf(dep, d, name)
    case None => None
    case Some(i) =>
      if !i.enabled then None else
      match Ready(dep, d, i)
      case None => None
      case Some(values) => Some(BuiltFrom(d, trust, i, values))
  }

  function BuiltFrom(d: Disk, trust: string, i: Instance, values: map<string, Value>): Built {
    Built(i.typ, i.runtime, values, Purpose(d, i.name), trust, Get(d.servers, i.name))
  }

  /** What is wanted is what the instance is, built from the values, purpose, certificates and server of now. */
  lemma WantedExactly(dep: Deployment, d: Disk, trust: string, name: string, b: Built)
    ensures Wanted(dep, d, trust, name) == Some(b)
            <==> var i := InstanceOf(dep, d, name);
                 && i.Some? && i.value.enabled && Ready(dep, d, i.value) == Some(b.values)
                 && b.typ == i.value.typ && b.runtime == i.value.runtime && b.trust == trust
                 && b.purpose == (if PluginKey(name, "purpose") in d.stored
                                  then d.stored[PluginKey(name, "purpose")] else "")
                 && b.server == (if name in d.servers then Some(d.servers[name]) else None)
  {
  }

  /** The required fields still without a value. */
  method MissingFields(fields: seq<Field>, values: map<string, Value>) returns (missing: seq<string>)
    ensures missing == [] <==> Complete(fields, values)
  {
    missing := [];
    for j := 0 to |fields|
      invariant missing == [] <==> Complete(fields[..j], values)
    {
      var f := fields[j];
      assert fields[..j + 1] == fields[..j] + [f];
      if !f.required { continue; }
      if f.key !in values || IsEmpty(values[f.key]) { missing := missing + [f.key]; }
    }
    assert fields[..|fields|] == fields;
  }

  /** Whether an instance can run, found by walking its fields. */
  method CheckReady(dep: Deployment, d: Disk, i: Instance) returns (ready: Option<map<string, Value>>)
    ensures ready == Ready(dep, d, i)
  {
    var fields := FieldsFor(dep, d, i);
    if fields.None? { return None; }
    var values := ResolveFields(InputsOf(dep, d, i.name), fields.value);
    if values.Err? { return None; }
    var missing := MissingFields(fields.value, values.value);
    if missing == [] && !HasTools(d, i) { missing := ["tools"]; }
    return if missing == [] then Some(values.value) else None;
  }

  // ---- The mounted set ----------------------------------------------------

  /** What is mounted and which names have their last failure noted. */
  datatype Served = Served(mounted: map<string, Built>, problems: set<string>)

  /** Bringing one name in line. A build that fails leaves what is mounted alone and is noted. */
  function Brought(dep: Deployment, d: Disk, trust: string, s: Served, name: string, works: bool): Served {
    match Wanted(dep, d, trust, name)
    case None => Served(s.mounted - {name}, s.problems - {name})
    case Some(b) =>
      if works then Served(s.mounted[name := b], s.problems - {name}) else s.(problems := s.problems + {name})
  }

  /** What happens when an instance is built at startup. */
  datatype Attempt = Works | BuildFails | RegisterFails

  predicate FileRequires(dep: Deployment, name: string) {
    name in dep.file && dep.file[name].required
  }

  /** The instances that keep a host from starting. */
  predicate StopsTheHost(dep: Deployment, d: Disk, i: Instance, attempt: Attempt) {
    i.enabled &&
    if i.runtime == Builtin && i.typ !in dep.types then i.fromFile
    else Ready(dep, d, i).Some?
         && (attempt == RegisterFails || (attempt == BuildFails && FileRequires(dep, i.name)))
  }

  /**
   What keeps a host from starting, and what does not: an unknown type does when the file
   names it and not when the dashboard does; a failed build does only when the file, not
   the plugin's own manifest, requires it; a failed registration always does; and
   nothing that is off or not ready does.
   */
  lemma WhatStopsTheHost(dep: Deployment, d: Disk, i: Instance, attempt: Attempt)
    ensures !i.enabled || attempt == Works ==>
              (StopsTheHost(dep, d, i, attempt)
               <==> i.enabled && i.runtime == Builtin && i.typ !in dep.types && i.fromFile)
    ensures i.enabled && (i.runtime == Remote || i.typ in dep.types) && Ready(dep, d, i).None? ==>
              !StopsTheHost(dep, d, i, attempt)
    ensures i.enabled && Ready(dep, d, i).Some? ==>
              && StopsTheHost(dep, d, i, RegisterFails)
              && (StopsTheHost(dep, d, i, BuildFails) <==> i.name in dep.file && dep.file[i.name].required)
  {
  }

  /** One instance registered at startup; absent when the host does not start. */
  function Registered(dep: Deployment, d: Disk, trust: string, s: Served, i: Instance, attempt: Attempt)
    : Option<Served>
  {
    if StopsTheHost(dep, d, i, attempt) then None
    else if !i.enabled then Some(s)
    else if i.runtime == Builtin && i.typ !in dep.types then Some(s.(problems := s.problems + {i.name}))
    else match Ready(dep, d, i)
      case None => Some(s)
      case Some(values) =>
        if attempt == Works then Some(s.(mounted := s.mounted[i.name := BuiltFrom(d, trust, i, values)]))
        else Some(s.(problems := s.problems + {i.name}))
  }

  function RegisteredAll(dep: Deployment, d: Disk, trust: string, all: seq<Instance>, attempts: string -> Attempt)
    : Option<Served>
  {
    if all == [] then Some(Served(map[], {})) else
      var i := all[|all| - 1];
      match RegisteredAll(dep, d, trust, all[..|all| - 1], attempts)
      case None => None
      case Some(s) => Registered(dep, d, trust, s, i, attempts(i.name))
  }

  /** A name is mounted as its configuration asks, or has its last failure noted. */
  predicate UpToDate(dep: Deployment, d: Disk, trust: string, s: Served, name: string) {
    Get(s.mounted, name) == Wanted(dep, d, trust, name) || name in s.problems
  }

  lemma StopsAt(dep: Deployment, d: Disk, trust: string, all: seq<Instance>, attempts: string -> Attempt)
    requires all != [] && RegisteredAll(dep, d, trust, all[..|all| - 1], attempts).Some?
    requires RegisteredAll(dep, d, trust, all, attempts).None?
    ensures var i := all[|all| - 1]; StopsTheHost(dep, d, i, attempts(i.name))
  {
  }

  lemma {:induction false} NoneStops(dep: Deployment, d: Disk, trust: string, all: seq<Instance>,
                                     attempts: string -> Attempt)
    requires RegisteredAll(dep, d, trust, all, attempts).Some?
    ensures forall i | i in all :: !StopsTheHost(dep, d, i, attempts(i.name))
  {
    if all == [] {
    } else {
      NoneStops(dep, d, trust, all[..|all| - 1], attempts);
      assert all == all[..|all| - 1] + [all[|all| - 1]];
    }
  }

  /** What startup notes as failing: a type nobody knows, or an instance that could be built and was not. */
  predicate Noted(dep: Deployment, d: Disk, name: string, attempt: Attempt) {
    var i := InstanceOf(dep, d, name);
    && i.Some? && i.value.enabled
    && ((i.value.runtime == Builtin && i.value.typ !in dep.types)
        || (Ready(dep, d, i.value).Some? && attempt != Works))
  }

  /** What startup leaves of a name: mounted as wanted, or noted and not mounted. */
  predicate StartedAs(dep: Deployment, d: Disk, trust: string, s: Served, name: string, attempt: Attempt) {
    && (name in s.problems <==> Noted(dep, d, name, attempt))
    && Get(s.mounted, name) == if Noted(dep, d, name, attempt) then None else Wanted(dep, d, trust, name)
  }

  /** What registering one instance does to a name. */
  lemma RegisteredAt(dep: Deployment, d: Disk, trust: string, s: Served, i: Instance, attempt: Attempt, name: string)
    requires Registered(dep, d, trust, s, i, attempt).Some?
    ensures var s' := Registered(dep, d, trust, s, i, attempt).value;
            && (name != i.name ==>
                  Get(s'.mounted, name) == Get(s.mounted, name) && (name in s'.problems <==> name in s.problems))
            && (name == i.name && InstanceOf(dep, d, name) == Some(i) && name !in s.mounted && name !in s.problems ==>
                  StartedAs(dep, d, trust, s', name, attempt))
  {
  }

  lemma {:induction false} RegisteredAllAt(dep: Deployment, d: Disk, trust: string, all: seq<Instance>,
                                           attempts: string -> Attempt, name: string)
    requires Sorted(InstanceKey, all) && forall i | i in all :: InstanceOf(dep, d, i.name) == Some(i)
    requires RegisteredAll(dep, d, trust, all, attempts).Some?
    ensures var s := RegisteredAll(dep, d, trust, all, attempts).value;
            if exists i :: i in all && i.name == name then StartedAs(dep, d, trust, s, name, attempts(name))
            else name !in s.mounted && name !in s.problems
  {
    if all == [] {
    } else {
      var rest, i := all[..|all| - 1], all[|all| - 1];
      assert all == rest + [i];
      RegisteredAllAt(dep, d, trust, rest, attempts, name);
      var s := RegisteredAll(dep, d, trust, rest, attempts).value;
      RegisteredAt(dep, d, trust, s, i, attempts(i.name), name);
      if i.name == name {
        LastApart(all, name);
      } else {
        StartedFrame(dep, d, trust, s, RegisteredAll(dep, d, trust, all, attempts).value, name, attempts(name));
      }
    }
  }

  lemma StartedFrame(dep: Deployment, d: Disk, trust: string, s: Served, s': Served, name: string, attempt: Attempt)
    requires Get(s'.mounted, name) == Get(s.mounted, name) && (name in s'.problems <==> name in s.problems)
    ensures StartedAs(dep, d, trust, s', name, attempt) <==> StartedAs(dep, d, trust, s, name, attempt)
  {
  }

  lemma LastApart(all: seq<Instance>, name: string)
    requires Sorted(InstanceKey, all) && all != [] && all[|all| - 1].name == name
    ensures forall i | i in all[..|all| - 1] :: i.name != name
  {
    SortedDistinct(InstanceKey, all);
    forall i | i in all[..|all| - 1] ensures i.name != name {
      var j :| 0 <= j < |all| - 1 && all[j] == i;
      assert InstanceKey(all[j]) != InstanceKey(all[|all| - 1]);
    }
  }

  lemma StartedUpToDate(dep: Deployment, d: Disk, trust: string, all: seq<Instance>, attempts: string -> Attempt)
    requires Sorted(InstanceKey, all) && forall i :: i in all <==> InstanceOf(dep, d, i.name) == Some(i)
    requires RegisteredAll(dep, d, trust, all, attempts).Some?
    ensures var s := RegisteredAll(dep, d, trust, all, attempts).value;
            forall name :: StartedAs(dep, d, trust, s, name, attempts(name)) && UpToDate(dep, d, trust, s, name)
  {
    var s := RegisteredAll(dep, d, trust, all, attempts).value;
    forall name ensures StartedAs(dep, d, trust, s, name, attempts(name)) && UpToDate(dep, d, trust, s, name) {
      RegisteredAllAt(dep, d, trust, all, attempts, name);
      if InstanceOf(dep, d, name).Some? { assert InstanceOf(dep, d, name).value in all; }
    }
  }

  /** The plugin manager and the notes beside it, changed in place. */
  class Manager {
    var mounted: map<string, Built>
    var problems: set<string>

    function View(): Served
      reads this
    {
      Served(mounted, problems)
    }

    constructor ()
      ensures View() == Served(map[], {})
    {
      mounted, problems := map[], {};
    }

    /** Reads the instance afresh, and mounts, replaces, unmounts or leaves it. */
    method ReconcileInstance(dep: Deployment, d: Disk, trust: string, name: string, works: bool) returns (ok: bool)
      modifies this
      ensures View() == Brought(dep, d, trust, old(View()), name, works)
      ensures !ok <==> name in problems
    {
      var inst := FindInstance(dep, d, name);
      if inst.None? {
        mounted, problems := mounted - {name}, problems - {name};
        return true;
      }
      var ready := CheckReady(dep, d, inst.value);
      if !inst.value.enabled || ready.None? {
        mounted, problems := mounted - {name}, problems - {name};
        return true;
      }
      if !works {
        problems := problems + {name};
        return false;
      }
      mounted, problems := mounted[name := BuiltFrom(d, trust, inst.value, ready.value)], problems - {name};
      return true;
    }

    /** One instance at startup: mounted, passed over, or noted; or the host does not start. */
    method RegisterOne(dep: Deployment, d: Disk, trust: string, i: Instance, attempt: Attempt) returns (ok: bool)
      modifies this
      ensures ok <==> Registered(dep, d, trust, old(View()), i, attempt).Some?
      ensures ok ==> Registered(dep, d, trust, old(View()), i, attempt) == Some(View())
    {
      if !i.enabled { return true; }
      if i.runtime == Builtin && i.typ !in dep.types {
        if i.fromFile { return false; }
        problems := problems + {i.name};
        return true;
      }
      var ready := CheckReady(dep, d, i);
      if ready.None? { return true; }
      if attempt == BuildFails {
        if FileRequires(dep, i.name) { return false; }
        problems := problems + {i.name};
        return true;
      }
      if attempt == RegisterFails { return false; }
      mounted := mounted[i.name := BuiltFrom(d, trust, i, ready.value)];
      return true;
    }

    /**
     Startup. The host starts exactly when no enabled instance keeps it from starting,
     and then every name is mounted as configured or has its failure noted.
     */
    method RegisterPlugins(dep: Deployment, d: Disk, trust: string, attempts: string -> Attempt)
      returns (started: bool)
      requires View() == Served(map[], {})
      modifies this
      ensures started <==>
              forall i: Instance | InstanceOf(dep, d, i.name) == Some(i) :: !StopsTheHost(dep, d, i, attempts(i.name))
      ensures started ==> forall name :: StartedAs(dep, d, trust, View(), name, attempts(name))
      ensures started ==> forall name :: UpToDate(dep, d, trust, View(), name)
    {
      var all := ListInstances(dep, d);
      for n := 0 to |all|
        invariant RegisteredAll(dep, d, trust, all[..n], attempts) == Some(View())
      {
        assert all[..n + 1][..n] == all[..n];
        var ok := RegisterOne(dep, d, trust, all[n], attempts(all[n].name));
        if !ok {
          StopsAt(dep, d, trust, all[..n + 1], attempts);
          assert all[n] in all;
          return false;
        }
      }
      assert all[..|all|] == all;
      NoneStops(dep, d, trust, all, attempts);
      StartedUpToDate(dep, d, trust, all, attempts);
      return true;
    }
  }
}
