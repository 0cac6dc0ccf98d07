/** The one-time import of the startup file's values into the settings store. */
module ConfigImport {
  import opened Wrappers
  import opened Maps
  import opened Sorting
  import opened Lists
  import opened SettingsStore

  /** A setting that moved, the tunnel's API key, or the marker of a finished import. */
  datatype Key = Setting(name: string) | ApiKey | ImportMarker

  type Settings = map<Key, string>

  /** A value the startup file still supplies for a setting that moved. */
  datatype Moved = Moved(file: string, name: string, kind: string, value: string)

  /** What the file's reference to the tunnel API key comes to; a resolved key may be empty. */
  datatype Reference = Absent | Broken | Resolves(key: string)

  datatype Legacy = Legacy(moved: seq<Moved>, reference: Reference)

  /** The settings schema: what it accepts, how it encodes, and what an unset key answers with. */
  datatype Schema = Schema(accepts: Moved -> bool, encode: (string, string) -> Option<string>, default: Moved -> string)

  /** What the marker says became of each key. */
  datatype ImportRecord = ImportRecord(imported: seq<string>, kept: seq<string>, refused: seq<string>)

  /** The name the API key is stored under. */
  const API_KEY: string := "tunnel.api_key"

  datatype Plan = Plan(changes: seq<Change<Key, string>>, record: ImportRecord)

  /** The stored form of a moved value, when the schema takes it. */
  function Stored(schema: Schema, m: Moved): Option<string> {
    if schema.accepts(m) then schema.encode(m.kind, m.value) else None
  }

  /** What the import does about each moved value, in order. */
  function Planned(schema: Schema, s: Settings, moved: seq<Moved>): Plan {
    if moved == [] then Plan([], ImportRecord([], [], [])) else
      var p := Planned(schema, s, moved[..|moved| - 1]);
      var m := moved[|moved| - 1];
      var key := Setting(m.name);
      if key in s then p.(record := p.record.(kept := p.record.kept + [m.name]))
      else match Stored(schema, m)
        case None => p.(record := p.record.(refused := p.record.refused + [m.name]))
        case Some(v) => Plan(p.changes + [Put(key, v, false)], p.record.(imported := p.record.imported + [m.name]))
  }

  /** The tunnel API key is read unless the store holds one that is not empty. */
  predicate HasKey(s: Settings) {
    ApiKey in s && s[ApiKey] != ""
  }

  /** There is a key to store. */
  predicate KeyToImport(s: Settings, r: Reference) {
    r.Resolves? && r.key != "" && !HasKey(s)
  }

  predicate Deferred(s: Settings, r: Reference, cipher: bool) {
    KeyToImport(s, r) && !cipher
  }

  /** The plan with the API key's part. */
  function WithKey(p: Plan, s: Settings, r: Reference, cipher: bool): Plan {
    if r.Broken? && !HasKey(s) then p.(record := p.record.(refused := p.record.refused + [API_KEY]))
    else if KeyToImport(s, r) && cipher then
      Plan(p.changes + [Put(ApiKey, r.key, true)], p.record.(imported := p.record.imported + [API_KEY]))
    else p
  }

  function InOrder(r: ImportRecord): ImportRecord {
    ImportRecord(SortTexts(r.imported), SortTexts(r.kept), SortTexts(r.refused))
  }

  /** The whole batch: the values, the key, and the marker unless the key had to wait. */
  function Batch(schema: Schema, s: Settings, l: Legacy, cipher: bool, mark: ImportRecord -> string)
    : seq<Change<Key, string>>
  {
    var p := WithKey(Planned(schema, s, l.moved), s, l.reference, cipher);
    if Deferred(s, l.reference, cipher) then p.changes
    else p.changes + [Put(ImportMarker, mark(InOrder(p.record)), false)]
  }

  /** The settings after a start. */
  function Imported(schema: Schema, s: Settings, l: Legacy, cipher: bool, mark: ImportRecord -> string): Settings {
    if ImportMarker in s then s else Applied(s, Batch(schema, s, l, cipher, mark))
  }

  /** The plan for the moved values, made by walking them. */
  method PlanMoved(schema: Schema, s: Settings, moved: seq<Moved>) returns (p: Plan)
    ensures p == Planned(schema, s, moved)
  {
    var changes, imported, kept, refused := [], [], [], [];
    for i := 0 to |moved|
      invariant Planned(schema, s, moved[..i]) == Plan(changes, ImportRecord(imported, kept, refused))
    {
      assert moved[..i + 1][..i] == moved[..i];
      var m := moved[i];
      if Setting(m.name) in s {
        kept := kept + [m.name];
        continue;
      }
      if !schema.accepts(m) {
        refused := refused + [m.name];
        continue;
      }
      var encoded := schema.encode(m.kind, m.value);
      if encoded.None? {
        refused := refused + [m.name];
        continue;
      }
      changes := changes + [Put(Setting(m.name), encoded.value, false)];
      imported := imported + [m.name];
    }
    assert moved[..|moved|] == moved;
    return Plan(changes, ImportRecord(imported, kept, refused));
  }

  /** What is written on a start, and whether that start finished the import. */
  method ImportLegacyConfig(schema: Schema, s: Settings, l: Legacy, cipher: bool, mark: ImportRecord -> string)
    returns (changes: seq<Change<Key, string>>, finished: bool)
    ensures changes == if ImportMarker in s then [] else Batch(schema, s, l, cipher, mark)
    ensures finished <==> ImportMarker !in s && !Deferred(s, l.reference, cipher)
  {
    if ImportMarker in s { return [], false; }
    var p := PlanMoved(schema, s, l.moved);
    var deferred := false;
    if !l.reference.Absent? && !HasKey(s) {
      if l.reference.Broken? {
        p := p.(record := p.record.(refused := p.record.refused + [API_KEY]));
      } else if l.reference.key == "" {
        // Nothing to store.
      } else if !cipher {
        deferred := true;
      } else {
        p := Plan(p.changes + [Put(ApiKey, l.reference.key, true)],
                  p.record.(imported := p.record.imported + [API_KEY]));
      }
    }
    changes := p.changes;
    if !deferred { changes := changes + [Put(ImportMarker, mark(InOrder(p.record)), false)]; }
    return changes, !deferred;
  }

  // ---- What an import leaves ----------------------------------------------

  /** The value the file supplies for a setting: the last one the schema takes. */
  function FileValue(schema: Schema, moved: seq<Moved>, name: string): Option<string> {
    if moved == [] then None else
      var m := moved[|moved| - 1];
      if m.name == name && Stored(schema, m).Some? then Stored(schema, m)
      else FileValue(schema, moved[..|moved| - 1], name)
  }

  lemma {:induction false} PlannedAt(schema: Schema, s: Settings, moved: seq<Moved>, k: Key)
    ensures Get(Applied(s, Planned(schema, s, moved).changes), k)
            == if k in s || !k.Setting? then Get(s, k) else FileValue(schema, moved, k.name)
  {
    if moved == [] {
    } else {
      var n := |moved| - 1;
      PlannedAt(schema, s, moved[..n], k);
      var m := moved[n];
      if Setting(m.name) !in s && Stored(schema, m).Some? {
        AppliedNext(s, Planned(schema, s, moved[..n]).changes, Put(Setting(m.name), Stored(schema, m).value, false));
      }
    }
  }

  /** Every key after an import: what was stored, or what the file supplies for it. */
  lemma ImportedAt(schema: Schema, s: Settings, l: Legacy, cipher: bool, mark: ImportRecord -> string, k: Key)
    requires ImportMarker !in s
    ensures var s' := Imported(schema, s, l, cipher, mark);
            && (k.Setting? ==> Get(s', k) == if k in s then Get(s, k) else FileValue(schema, l.moved, k.name))
            && (k == ApiKey ==>
                  Get(s', k) == if KeyToImport(s, l.reference) && cipher then Some(l.reference.key) else Get(s, k))
            && (k == ImportMarker ==> (k in s' <==> !Deferred(s, l.reference, cipher)))
  {
    var p := Planned(schema, s, l.moved);
    var q := WithKey(p, s, l.reference, cipher);
    PlannedAt(schema, s, l.moved, k);
    if KeyToImport(s, l.reference) && cipher {
      AppliedNext(s, p.changes, Put(ApiKey, l.reference.key, true));
    }
    AppliedNext(s, q.changes, Put(ImportMarker, mark(InOrder(q.record)), false));
  }

  /** The record names each key the file supplied for what became of it. */
  lemma {:induction false} RecordAccounts(schema: Schema, s: Settings, moved: seq<Moved>, name: string)
    ensures var r := Planned(schema, s, moved).record;
            && (name in r.kept <==> Setting(name) in s && exists m | m in moved :: m.name == name)
            && (name in r.imported <==>
                  Setting(name) !in s && exists m | m in moved :: m.name == name && Stored(schema, m).Some?)
            && (name in r.refused <==>
                  Setting(name) !in s && exists m | m in moved :: m.name == name && Stored(schema, m).None?)
  {
    if moved == [] {
    } else {
      var n := |moved| - 1;
      RecordAccounts(schema, s, moved[..n], name);
      assert forall m :: m in moved <==> m in moved[..n] || m == moved[n];
    }
  }

  lemma {:induction false} PlannedPuts(schema: Schema, s: Settings, moved: seq<Moved>)
    ensures forall c | c in Planned(schema, s, moved).changes :: c.Put?
  {
    if moved == [] {
    } else {
      PlannedPuts(schema, s, moved[..|moved| - 1]);
    }
  }

  lemma PutsAgree(batch: seq<Change<Key, string>>)
    requires forall c | c in batch :: c.Put?
    ensures NoPutAfterDelete(batch)
  {
    assert Deletes(batch) == {};
  }

  /** The batch deletes nothing, so cache and table agree after it. */
  lemma BatchAgrees(schema: Schema, s: Settings, l: Legacy, cipher: bool, mark: ImportRecord -> string)
    ensures NoPutAfterDelete(Batch(schema, s, l, cipher, mark))
  {
    PlannedPuts(schema, s, l.moved);
    var p := WithKey(Planned(schema, s, l.moved), s, l.reference, cipher);
    assert forall c | c in p.changes :: c.Put?;
    PutsAgree(p.changes);
    PutsAgree(p.changes + [Put(ImportMarker, mark(InOrder(p.record)), false)]);
  }

  /**
   The API key and the marker, said outright: the key is what the reference resolves to
   when that is something, none is stored or an empty one is, and there is a cipher; the
   marker is there unless a key had to wait for a cipher.
   */
  lemma KeyAndMarkerExactly(schema: Schema, s: Settings, l: Legacy, cipher: bool, mark: ImportRecord -> string)
    requires ImportMarker !in s
    ensures var s', r := Imported(schema, s, l, cipher, mark), l.reference;
            var waiting := r.Resolves? && r.key != "" && (ApiKey !in s || s[ApiKey] == "");
            && Get(s', ApiKey) == (if waiting && cipher then Some(r.key) else Get(s, ApiKey))
            && (ImportMarker in s' <==> cipher || !waiting)
  {
    ImportedAt(schema, s, l, cipher, mark, ApiKey);
    ImportedAt(schema, s, l, cipher, mark, ImportMarker);
  }

  /** The API key is the one thing written as a secret, and it never is otherwise. */
  lemma KeyIsSecret(schema: Schema, s: Settings, l: Legacy, cipher: bool, mark: ImportRecord -> string)
    ensures forall c | c in Batch(schema, s, l, cipher, mark) :: c.Put? && (c.secret <==> c.key == ApiKey)
    ensures forall c | c in Batch(schema, s, l, cipher, mark) :: c.secret ==> cipher
  {
    PlannedPlain(schema, s, l.moved);
    var p := WithKey(Planned(schema, s, l.moved), s, l.reference, cipher);
    assert forall c | c in p.changes :: c.Put? && (c.secret <==> c.key == ApiKey) && (c.secret ==> cipher);
  }

  lemma {:induction false} PlannedPlain(schema: Schema, s: Settings, moved: seq<Moved>)
    ensures forall c | c in Planned(schema, s, moved).changes :: c.Put? && !c.secret && c.key.Setting?
  {
    if moved == [] {
    } else {
      PlannedPlain(schema, s, moved[..|moved| - 1]);
    }
  }

  /** A moved value's stored form: what the schema makes of one it accepts. */
  lemma StoredExactly(schema: Schema, m: Moved, v: string)
    ensures Stored(schema, m) == Some(v) <==> schema.accepts(m) && schema.encode(m.kind, m.value) == Some(v)
  {
  }

  /** The record the marker holds: the same names, in alphabetical order, with the API key where it belongs. */
  lemma MarkerSays(schema: Schema, s: Settings, l: Legacy, cipher: bool, mark: ImportRecord -> string)
    requires ImportMarker !in s && !Deferred(s, l.reference, cipher)
    ensures var r := WithKey(Planned(schema, s, l.moved), s, l.reference, cipher).record;
            var said := InOrder(r);
            && Get(Imported(schema, s, l, cipher, mark), ImportMarker) == Some(mark(said))
            && Ascending(said.imported) && Ascending(said.kept) && Ascending(said.refused)
            && multiset(said.imported) == multiset(r.imported) && multiset(said.kept) == multiset(r.kept)
            && multiset(said.refused) == multiset(r.refused)
  {
    var p := WithKey(Planned(schema, s, l.moved), s, l.reference, cipher);
    AppliedNext(s, p.changes, Put(ImportMarker, mark(InOrder(p.record)), false));
    SortTextsAscends(p.record.imported);
    SortTextsAscends(p.record.kept);
    SortTextsAscends(p.record.refused);
  }

  /** Where the record says the API key went. */
  lemma RecordNamesTheKey(p: Plan, s: Settings, r: Reference, cipher: bool)
    ensures var out := WithKey(p, s, r, cipher).record;
            && out.kept == p.record.kept
            && out.imported == p.record.imported
                 + (if r.Resolves? && r.key != "" && cipher && (ApiKey !in s || s[ApiKey] == "")
                    then ["tunnel.api_key"] else [])
            && out.refused == p.record.refused
                 + (if r.Broken? && (ApiKey !in s || s[ApiKey] == "") then ["tunnel.api_key"] else [])
  {
  }

  // ---- What the import promises -------------------------------------------

  /** A stored key that would be replaced: an empty API key, with one to import and a cipher to do it. */
  predicate ReplacesAnEmptyKey(s: Settings, l: Legacy, cipher: bool) {
    ImportMarker !in s && ApiKey in s && KeyToImport(s, l.reference) && cipher
  }

  /**
   No stored key changes, but for one case: an API key stored empty is replaced when
   the file's reference resolves and there is a cipher.
   */
  lemma NeverOverwritesExactly(schema: Schema, s: Settings, l: Legacy, cipher: bool, mark: ImportRecord -> string)
    ensures (forall k | k in s :: Get(Imported(schema, s, l, cipher, mark), k) == Get(s, k))
            <==> !ReplacesAnEmptyKey(s, l, cipher)
  {
    if ImportMarker !in s {
      forall k | k in s && k != ApiKey ensures Get(Imported(schema, s, l, cipher, mark), k) == Get(s, k) {
        ImportedAt(schema, s, l, cipher, mark, k);
      }
      ImportedAt(schema, s, l, cipher, mark, ApiKey);
    }
  }

  /** The failing input: an API key stored empty, with a reference that resolves and a cipher. */
  lemma EmptyKeyIsReplaced(schema: Schema, mark: ImportRecord -> string, moved: seq<Moved>, key: string)
    requires key != ""
    ensures Get(Imported(schema, map[ApiKey := ""], Legacy(moved, Resolves(key)), true, mark), ApiKey) == Some(key)
  {
    ImportedAt(schema, map[ApiKey := ""], Legacy(moved, Resolves(key)), true, mark, ApiKey);
  }

  /** Once an import has finished, no later start changes anything, whatever its file says. */
  lemma FinishedForGood(schema: Schema, s: Settings, l: Legacy, cipher: bool, mark: ImportRecord -> string,
                        later: Legacy, laterCipher: bool)
    requires !Deferred(s, l.reference, cipher)
    ensures var s' := Imported(schema, s, l, cipher, mark); Imported(schema, s', later, laterCipher, mark) == s'
  {
    if ImportMarker !in s { ImportedAt(schema, s, l, cipher, mark, ImportMarker); }
  }

  /**
   A start without a cipher and then one with it leave what one start with a cipher
   leaves, but for what the marker says.
   */
  lemma DeferredIsFinishedLater(schema: Schema, s: Settings, l: Legacy, mark: ImportRecord -> string)
    ensures var first := Imported(schema, s, l, false, mark);
            Imported(schema, first, l, true, mark) - {ImportMarker}
            == Imported(schema, s, l, true, mark) - {ImportMarker}
  {
    var first := Imported(schema, s, l, false, mark);
    var twice, once := Imported(schema, first, l, true, mark), Imported(schema, s, l, true, mark);
    forall k ensures Get(twice - {ImportMarker}, k) == Get(once - {ImportMarker}, k) {
      if k != ImportMarker { DeferredAt(schema, s, l, mark, k); }
    }
    SameMap(twice - {ImportMarker}, once - {ImportMarker});
  }

  /** The same, one key at a time. */
  lemma DeferredAt(schema: Schema, s: Settings, l: Legacy, mark: ImportRecord -> string, k: Key)
    requires k != ImportMarker
    ensures var first := Imported(schema, s, l, false, mark);
            Get(Imported(schema, first, l, true, mark), k) == Get(Imported(schema, s, l, true, mark), k)
  {
    var first := Imported(schema, s, l, false, mark);
    if ImportMarker !in s {
      ImportedAt(schema, s, l, false, mark, ImportMarker);
      ImportedAt(schema, s, l, false, mark, ApiKey);
      ImportedAt(schema, s, l, false, mark, k);
      ImportedAt(schema, s, l, true, mark, k);
      if ImportMarker !in first { ImportedAt(schema, first, l, true, mark, k); }
    }
  }

  // ---- Warnings about values no longer read -------------------------------

  datatype Warning = Warning(file: string, running: string) | KeyStillNamed

  /** A moved value is warned about when it disagrees with what the host is running. */
  function Warned(schema: Schema, s: Settings, m: Moved): Option<Warning> {
    match schema.encode(m.kind, m.value)
    case None => None
    case Some(want) =>
      var got := if Setting(m.name) in s then s[Setting(m.name)] else schema.default(m);
      if got == want then None else Some(Warning(m.file, got))
  }

  /** What a warning says: where the value is written, and what runs instead of it. */
  lemma WarnedExactly(schema: Schema, s: Settings, m: Moved, w: Warning)
    ensures Warned(schema, s, m) == Some(w)
            <==> var running := if Setting(m.name) in s then s[Setting(m.name)] else schema.default(m);
                 schema.encode(m.kind, m.value).Some? && schema.encode(m.kind, m.value) != Some(running)
                 && w == Warning(m.file, running)
  {
  }

  /** The warnings as they are read: the message of each value that disagrees, in alphabetical order. */
  method StaleConfigWarnings(schema: Schema, s: Settings, l: Legacy, message: Warning -> string)
    returns (out: seq<string>)
    ensures Ascending(out)
    ensures multiset(out) == multiset(Messages(message, Warnings(schema, s, l)))
  {
    var warnings := CollectWarnings(schema, s, l);
    out := SortTexts(Messages(message, warnings));
    SortTextsAscends(Messages(message, warnings));
  }

  ghost function Warnings(schema: Schema, s: Settings, l: Legacy): seq<Warning> {
    FilterMap((m: Moved) => Warned(schema, s, m), l.moved)
    + (if !l.reference.Absent? && ApiKey in s then [KeyStillNamed] else [])
  }

  function Messages(message: Warning -> string, warnings: seq<Warning>): seq<string> {
    seq(|warnings|, i requires 0 <= i < |warnings| => message(warnings[i]))
  }

  method CollectWarnings(schema: Schema, s: Settings, l: Legacy) returns (out: seq<Warning>)
    ensures out == Warnings(schema, s, l)
  {
    out := [];
    ghost var f := (m: Moved) => Warned(schema, s, m);
    for i := 0 to |l.moved|
      invariant out == FilterMap(f, l.moved[..i])
    {
      FilterMapNext(f, l.moved, i);
      var m := l.moved[i];
      var want := schema.encode(m.kind, m.value);
      if want.None? { continue; }
      var got := if Setting(m.name) in s then s[Setting(m.name)] else schema.default(m);
      if got == want.value { continue; }
      out := out + [Warning(m.file, got)];
    }
    assert l.moved[..|l.moved|] == l.moved;
    if !l.reference.Absent? && ApiKey in s { out := out + [KeyStillNamed]; }
  }

  predicate DistinctNames(moved: seq<Moved>) {
    forall i, j | 0 <= i < j < |moved| :: moved[i].name != moved[j].name
  }

  lemma {:induction false} FileValueOf(schema: Schema, moved: seq<Moved>, i: nat)
    requires DistinctNames(moved) && i < |moved|
    ensures FileValue(schema, moved, moved[i].name) == Stored(schema, moved[i])
  {
    var n := |moved| - 1;
    if i < n {
      FileValueOf(schema, moved[..n], i);
    } else if Stored(schema, moved[n]).None? {
      NoFileValue(schema, moved[..n], moved[n].name);
    }
  }

  lemma {:induction false} NoFileValue(schema: Schema, moved: seq<Moved>, name: string)
    requires forall m | m in moved :: m.name != name
    ensures FileValue(schema, moved, name) == None
  {
    if moved == [] {
    } else {
      NoFileValue(schema, moved[..|moved| - 1], name);
    }
  }

  /**
   A value that was imported is not warned about while it stays what the import made
   it; and once the store holds anything else for it, it is.
   */
  lemma ImportedIsNotStale(schema: Schema, s: Settings, l: Legacy, cipher: bool, mark: ImportRecord -> string,
                           i: nat, now: Settings)
    requires DistinctNames(l.moved) && i < |l.moved| && ImportMarker !in s
    requires Setting(l.moved[i].name) !in s && Stored(schema, l.moved[i]).Some?
    requires Setting(l.moved[i].name) in now
    ensures var key := Setting(l.moved[i].name);
            Warned(schema, now, l.moved[i]).None?
            <==> Get(now, key) == Get(Imported(schema, s, l, cipher, mark), key)
  {
    ImportedAt(schema, s, l, cipher, mark, Setting(l.moved[i].name));
    FileValueOf(schema, l.moved, i);
  }
}
