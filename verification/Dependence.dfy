/** What the configuration of one plugin depends on. */
module Dependence {
  import opened Wrappers
  import opened Maps
  import opened PluginSettings
  import opened Instances
  import opened Lifecycle
  import opened Reconcile

  // ---- Shapes the host validates ------------------------------------------

  /** ^[a-z][a-z0-9_]*$ */
  predicate FieldOk(field: string) {
    && field != "" && Lower(field[0])
    && forall i | 1 <= i < |field| :: Lower(field[i]) || Digit(field[i]) || field[i] == '_'
  }

  /** A field's key, letter by letter. */
  lemma FieldOkExactly(field: string)
    ensures FieldOk(field)
            <==> && field != "" && field[0] in "abcdefghijklmnopqrstuvwxyz"
                 && forall i | 1 <= i < |field| ::
                      field[i] in "abcdefghijklmnopqrstuvwxyz0123456789_-" && field[i] != '-'
  {
    forall c: char ensures Lower(c) <==> c in "abcdefghijklmnopqrstuvwxyz" { LowerExactly(c); }
    forall c: char
      ensures Lower(c) || Digit(c) || c == '_' || c == '-' <==> c in "abcdefghijklmnopqrstuvwxyz0123456789_-"
    {
      NameCharExactly(c);
    }
  }

  /** Plugin names, and each type's field keys, which also differ from one another. */
  predicate WellNamed(dep: Deployment) {
    && (forall n | n in dep.file.Keys + dep.dirs.Keys :: NameOk(n))
    && (forall t, f | t in dep.types && f in dep.types[t] :: FieldOk(f.key))
    && (forall t | t in dep.types :: DistinctFields(dep.types[t]))
  }

  /** A remote server's fields are never tables. */
  predicate ServerOk(name: string, s: Server) {
    && NameOk(name)
    && (s.fields.Some? ==> forall f | f in s.fields.value :: FieldOk(f.key) && !f.kind.Collection?)
  }

  predicate ServersOk(d: Disk) {
    forall n | n in d.servers :: ServerOk(n, d.servers[n])
  }

  lemma ImproperIsUnknown(dep: Deployment, d: Disk, name: string)
    requires WellNamed(dep) && ServersOk(d) && !NameOk(name)
    ensures InstanceOf(dep, d, name).None?
  {
    assert name !in dep.file.Keys + dep.dirs.Keys;
  }

  // ---- What is wanted depends on the name alone ---------------------------

  /** The values a name's fields may be resolved from are the same. */
  ghost predicate SameValues(d: Disk, d': Disk, name: string) {
    && (forall k: PluginKey | k.instance == name && FieldOk(k.field) :: Get(d.stored, k) == Get(d'.stored, k))
    && (forall k: PluginKey | k.instance == name :: Get(d.rows, k) == Get(d'.rows, k))
  }

  lemma {:induction false} FilledFrame(ins: Inputs, ins': Inputs, fields: seq<Field>)
    requires ins.file == ins'.file && ins.rows == ins'.rows && ins.readers == ins'.readers
    requires forall f | f in fields :: Get(ins.stored, f.key) == Get(ins'.stored, f.key)
    ensures Filled(ins, fields) == Filled(ins', fields)
  {
    if fields == [] {
    } else {
      var n := |fields| - 1;
      FilledFrame(ins, ins', fields[..n]);
      assert fields[n] in fields;
      FieldFrame(ins, ins', fields[n]);
    }
  }

  lemma FieldFrame(ins: Inputs, ins': Inputs, f: Field)
    requires ins.file == ins'.file && ins.rows == ins'.rows && ins.readers == ins'.readers
    requires Get(ins.stored, f.key) == Get(ins'.stored, f.key)
    ensures FieldValue(ins, f) == FieldValue(ins', f)
  {
  }

  lemma ByFieldAt<V>(m: map<PluginKey, V>, name: string, field: string)
    ensures Get(ByField(m, name), field) == Get(m, PluginKey(name, field))
  {
    assert PluginKey(name, field) in m ==> field in ByField(m, name);
  }

  lemma RowsFrame(rows: map<PluginKey, seq<Row>>, rows': map<PluginKey, seq<Row>>, name: string)
    requires forall k: PluginKey | k.instance == name :: Get(rows, k) == Get(rows', k)
    ensures ByField(rows, name) == ByField(rows', name)
  {
    forall field: string ensures Get(ByField(rows, name), field) == Get(ByField(rows', name), field) {
      assert Get(rows, PluginKey(name, field)) == Get(rows', PluginKey(name, field));
      ByFieldAt(rows, name, field);
      ByFieldAt(rows', name, field);
    }
    SameMap(ByField(rows, name), ByField(rows', name));
  }

  lemma StoredFrame(d: Disk, d': Disk, name: string, field: string)
    requires SameValues(d, d', name) && FieldOk(field)
    ensures Get(ByField(d.stored, name), field) == Get(ByField(d'.stored, name), field)
  {
    assert Get(d.stored, PluginKey(name, field)) == Get(d'.stored, PluginKey(name, field));
    ByFieldAt(d.stored, name, field);
    ByFieldAt(d'.stored, name, field);
  }

  lemma InputsFrame(dep: Deployment, d: Disk, d': Disk, name: string, fields: seq<Field>)
    requires SameValues(d, d', name) && forall f | f in fields :: FieldOk(f.key)
    ensures Resolved(InputsOf(dep, d, name), fields) == Resolved(InputsOf(dep, d', name), fields)
  {
    RowsFrame(d.rows, d'.rows, name);
    forall f | f in fields ensures Get(ByField(d.stored, name), f.key) == Get(ByField(d'.stored, name), f.key) {
      StoredFrame(d, d', name, f.key);
    }
    FilledFrame(InputsOf(dep, d, name), InputsOf(dep, d', name), fields);
  }

  lemma ReadyFrame(dep: Deployment, d: Disk, d': Disk, i: Instance, i': Instance)
    requires WellNamed(dep) && ServersOk(d) && SameDeclaration(d, d', i.name) && SameValues(d, d', i.name)
    requires i' == i.(storedSettings := i'.storedSettings)
    ensures Ready(dep, d, i) == Ready(dep, d', i')
  {
    var fields := FieldsFor(dep, d, i);
    if fields.Some? {
      assert forall f | f in fields.value :: FieldOk(f.key);
      InputsFrame(dep, d, d', i.name, fields.value);
    }
  }

  lemma PurposeFrame(d: Disk, d': Disk, name: string)
    requires SameValues(d, d', name)
    ensures Purpose(d, name) == Purpose(d', name)
  {
    assert FieldOk(PURPOSE);
    assert Get(d.stored, PluginKey(name, PURPOSE)) == Get(d'.stored, PluginKey(name, PURPOSE));
  }

  /** What is wanted under a name depends on that name's declarations and values, and the trust pool. */
  lemma WantedFrame(dep: Deployment, d: Disk, d': Disk, trust: string, name: string)
    requires WellNamed(dep) && ServersOk(d) && SameDeclaration(d, d', name) && SameValues(d, d', name)
    ensures Wanted(dep, d, trust, name) == Wanted(dep, d', trust, name)
  {
    InstanceFrame(dep, d, d', name);
    PurposeFrame(d, d', name);
    if InstanceOf(dep, d, name).Some? {
      ReadyFrame(dep, d, d', InstanceOf(dep, d, name).value, InstanceOf(dep, d', name).value);
    }
  }

  // ---- When wiping rows matters -------------------------------------------

  /** The same inputs with no table rows stored. */
  function Rowless(ins: Inputs): Inputs {
    ins.(rows := map[])
  }

  /** A table field whose stored rows are not what the file alone would give it. */
  predicate RowsMatter(ins: Inputs, f: Field) {
    f.kind.Collection? && TableOf(ins, f) != TableOf(Rowless(ins), f)
  }

  /** A plugin that is on, has all it needs, and draws on stored rows. */
  predicate UsesRows(dep: Deployment, d: Disk, name: string) {
    var i := InstanceOf(dep, d, name);
    && i.Some? && i.value.enabled && Ready(dep, d, i.value).Some?
    && exists f | f in FieldsFor(dep, d, i.value).value :: RowsMatter(InputsOf(dep, d, name), f)
  }

  lemma UnrowedInputs(dep: Deployment, d: Disk, name: string)
    ensures InputsOf(dep, Unrowed(d, name), name) == Rowless(InputsOf(dep, d, name))
  {
    assert ByField(Unrowed(d, name).rows, name) == map[];
  }

  lemma StoredRowsFill(ins: Inputs, f: Field)
    ensures RowsMatter(ins, f) ==> TableOf(ins, f).Ok? && TableOf(ins, f).value != []
    ensures !RowsMatter(ins, f) ==> FieldValue(ins, f) == FieldValue(Rowless(ins), f)
  {
    if f.key in ins.rows && ins.rows[f.key] != [] { assert MergedRows(ins.rows[f.key]) != []; }
  }

  /** Rows can only help: what fills a form without them fills it with them. */
  lemma {:induction false} FilledWithRows(ins: Inputs, fields: seq<Field>)
    requires Filled(Rowless(ins), fields).Ok?
    ensures Filled(ins, fields).Ok?
  {
    if fields == [] {
    } else {
      var n := |fields| - 1;
      FilledWithRows(ins, fields[..n]);
      StoredRowsFill(ins, fields[n]);
      assert fields[n] in fields;
    }
  }

  lemma {:induction false} FilledWithoutRows(ins: Inputs, fields: seq<Field>)
    requires forall f | f in fields :: !RowsMatter(ins, f)
    ensures Filled(ins, fields) == Filled(Rowless(ins), fields)
  {
    if fields == [] {
    } else {
      var n := |fields| - 1;
      FilledWithoutRows(ins, fields[..n]);
      StoredRowsFill(ins, fields[n]);
      assert fields[n] in fields;
    }
  }

  lemma CompleteWithRows(ins: Inputs, fields: seq<Field>)
    requires DistinctFields(fields) && Resolved(Rowless(ins), fields).Ok?
    requires Complete(fields, Resolved(Rowless(ins), fields).value)
    ensures Resolved(ins, fields).Ok? && Complete(fields, Resolved(ins, fields).value)
  {
    FilledWithRows(ins, fields);
    var out, out' := Resolved(Rowless(ins), fields).value, Resolved(ins, fields).value;
    forall f | f in fields && f.required ensures f.key in out' && !IsEmpty(out'[f.key]) {
      var i :| 0 <= i < |fields| && fields[i] == f;
      FieldDecides(ins, fields, i);
      FieldDecides(Rowless(ins), fields, i);
      StoredRowsFill(ins, f);
    }
  }

  /** Resolving without the rows is resolving to something else exactly when some field draws on them. */
  lemma RowsMatterExactly(ins: Inputs, fields: seq<Field>)
    requires DistinctFields(fields) && Resolved(ins, fields).Ok?
    ensures Resolved(Rowless(ins), fields) != Resolved(ins, fields) <==> exists f | f in fields :: RowsMatter(ins, f)
  {
    if f :| f in fields && RowsMatter(ins, f) {
      var i :| 0 <= i < |fields| && fields[i] == f;
      FieldDecides(ins, fields, i);
      if Resolved(Rowless(ins), fields).Ok? { FieldDecides(Rowless(ins), fields, i); }
    } else {
      FilledWithoutRows(ins, fields);
    }
  }

  /** A form's values, once it resolves and is complete. */
  function Form(ins: Inputs, fields: seq<Field>): Option<map<string, Value>> {
    var r := Resolved(ins, fields);
    if r.Ok? && Complete(fields, r.value) then Some(r.value) else None
  }

  /** Losing its rows changes a form exactly when it was filled in and some field drew on them. */
  lemma FormMovesExactly(ins: Inputs, fields: seq<Field>)
    requires DistinctFields(fields) || forall f | f in fields :: !f.kind.Collection?
    ensures Form(Rowless(ins), fields) != Form(ins, fields)
            <==> Form(ins, fields).Some? && exists f | f in fields :: RowsMatter(ins, f)
  {
    if DistinctFields(fields) {
      if Resolved(ins, fields).Ok? { RowsMatterExactly(ins, fields); }
      if Form(Rowless(ins), fields).Some? { CompleteWithRows(ins, fields); }
    } else {
      FilledWithoutRows(ins, fields);
    }
  }

  lemma ReadyIsForm(dep: Deployment, d: Disk, i: Instance)
    ensures Ready(dep, d, i) == if FieldsFor(dep, d, i).Some? && HasTools(d, i)
                                then Form(InputsOf(dep, d, i.name), FieldsFor(dep, d, i).value) else None
  {
  }

  lemma WipeMovesReady(dep: Deployment, d: Disk, i: Instance)
    requires WellNamed(dep) && ServersOk(d)
    ensures Ready(dep, Unrowed(d, i.name), i) != Ready(dep, d, i)
            <==> Ready(dep, d, i).Some?
                 && exists f | f in FieldsFor(dep, d, i).value :: RowsMatter(InputsOf(dep, d, i.name), f)
  {
    var d' := Unrowed(d, i.name);
    ReadyIsForm(dep, d, i);
    ReadyIsForm(dep, d', i);
    UnrowedInputs(dep, d, i.name);
    assert FieldsFor(dep, d', i) == FieldsFor(dep, d, i) && HasTools(d', i) == HasTools(d, i);
    if FieldsFor(dep, d, i).Some? { FormMovesExactly(InputsOf(dep, d, i.name), FieldsFor(dep, d, i).value); }
  }

  lemma WantedIs(dep: Deployment, d: Disk, trust: string, i: Instance)
    requires InstanceOf(dep, d, i.name) == Some(i)
    ensures Wanted(dep, d, trust, i.name)
            == if i.enabled && Ready(dep, d, i).Some?
               then Some(BuiltFrom(d, trust, i, Ready(dep, d, i).value)) else None
  {
  }

  /** Wiping a plugin's rows changes what is wanted exactly when it uses them. */
  lemma WipeMovesExactly(dep: Deployment, d: Disk, trust: string, name: string)
    requires WellNamed(dep) && ServersOk(d)
    ensures Wanted(dep, Unrowed(d, name), trust, name) != Wanted(dep, d, trust, name) <==> UsesRows(dep, d, name)
  {
    var d' := Unrowed(d, name);
    assert InstanceOf(dep, d', name) == InstanceOf(dep, d, name);
    if InstanceOf(dep, d, name).Some? {
      var i := InstanceOf(dep, d, name).value;
      WantedIs(dep, d, trust, i);
      WantedIs(dep, d', trust, i);
      WipeMovesReady(dep, d, i);
    }
  }

  // ---- When reading the overrides back matters ----------------------------

  /** A plugin that has all it needs, and whose stored override is on where memory's is off, or off where it is on. */
  predicate SwitchedUnread(dep: Deployment, d: Disk, name: string) {
    var i := InstanceOf(dep, d, name);
    && i.Some? && i.value.runtime == Builtin && Ready(dep, d, i.value).Some?
    && EnabledAfter(dep, d.(cache := d.table), name) != EnabledAfter(dep, d, name)
  }

  /** Reading the overrides back changes what is wanted exactly when one was switched and not read. */
  lemma ReloadMovesExactly(dep: Deployment, d: Disk, d': Disk, trust: string, name: string)
    requires d' == d.(table := d'.table, cache := d'.table) && Get(d'.table, name) == Get(d.table, name)
    ensures Wanted(dep, d', trust, name) != Wanted(dep, d, trust, name) <==> SwitchedUnread(dep, d, name)
  {
    var i, i' := InstanceOf(dep, d, name), InstanceOf(dep, d', name);
    assert i.None? <==> i'.None?;
    if i.Some? {
      ReloadKeepsReady(dep, d, d', name);
      SwitchDecidesWanted(dep, d, d', trust, i.value, i'.value);
      assert EnabledAfter(dep, d', name) == EnabledAfter(dep, d.(cache := d.table), name);
    }
  }

  /** Two instances alike but for being on are wanted alike exactly when both are on, both off, or neither can run. */
  lemma SwitchDecidesWanted(dep: Deployment, d: Disk, d': Disk, trust: string, i: Instance, i': Instance)
    requires InstanceOf(dep, d, i.name) == Some(i) && InstanceOf(dep, d', i.name) == Some(i')
    requires i'.typ == i.typ && i'.runtime == i.runtime && Ready(dep, d', i') == Ready(dep, d, i)
    requires d'.stored == d.stored && d'.servers == d.servers
    ensures Wanted(dep, d', trust, i.name) != Wanted(dep, d, trust, i.name)
            <==> Ready(dep, d, i).Some? && i.enabled != i'.enabled
  {
    WantedIs(dep, d, trust, i);
    WantedIs(dep, d', trust, i');
  }

  lemma ReloadKeepsReady(dep: Deployment, d: Disk, d': Disk, name: string)
    requires d' == d.(table := d'.table, cache := d'.table) && InstanceOf(dep, d, name).Some?
    ensures InstanceOf(dep, d', name).Some?
    ensures var i, i' := InstanceOf(dep, d, name).value, InstanceOf(dep, d', name).value;
            && i'.typ == i.typ && i'.runtime == i.runtime && Ready(dep, d', i') == Ready(dep, d, i)
            && i.enabled == (if name in d.servers then d.servers[name].enabled else EnabledAfter(dep, d, name))
            && i'.enabled == (if name in d.servers then d.servers[name].enabled else EnabledAfter(dep, d', name))
  {
    var i, i' := InstanceOf(dep, d, name).value, InstanceOf(dep, d', name).value;
    assert InputsOf(dep, d', name) == InputsOf(dep, d, name);
    assert FieldsFor(dep, d', i') == FieldsFor(dep, d, i);
  }
}
