/** What one plugin instance is configured with: the store, then the file, then the default. */
module PluginSettings {
  import opened Wrappers
  import opened Text
  import opened Maps

  datatype Value =
    | Str(text: string) | Num(n: int) | Flag(on: bool)
    | Items(items: seq<Value>) | Table(entries: map<string, Value>) | Rows(rows: seq<map<string, Value>>)

  datatype Kind = Secret | Collection | Scalar(word: string)

  datatype Column = Column(key: string, secret: bool)

  datatype Field = Field(key: string, kind: Kind, required: bool, default: Option<Value>, columns: seq<Column>)

  /** A stored table row: its plain columns and its decrypted secret ones. */
  datatype Row = Row(data: map<string, Value>, secrets: map<string, string>)

  /** How stored text is decoded and how a reference to a credential is resolved. */
  datatype Readers = Readers(decode: (Kind, string) -> Value, resolve: string -> Option<string>)

  /** Everything one instance's values come from. */
  datatype Inputs = Inputs(
    file: map<string, Value>, stored: map<string, string>, rows: map<string, seq<Row>>, readers: Readers)

  datatype Trouble = BadReference(field: string) | NotAList(field: string) | BadRow(field: string, row: nat)

  const REF: string := "_ref"

  predicate IsReference(key: string) {
    |key| >= |REF| && key[|key| - |REF|..] == REF
  }

  /** A string entry that is not blank. */
  function StringFrom(m: map<string, Value>, key: string): Option<string> {
    if key in m && m[key].Str? && Trim(m[key].text) != "" then Some(m[key].text) else None
  }

  /** Which keys are references. */
  lemma ReferenceExactly(key: string)
    ensures IsReference(key) <==> exists base: string :: key == base + "_ref"
  {
    if IsReference(key) { assert key == key[..|key| - 4] + "_ref"; }
    if base: string :| key == base + "_ref" { assert key[|key| - 4..] == "_ref"; }
  }

  /** Which entries are taken for texts. */
  lemma StringFromExactly(m: map<string, Value>, key: string, text: string)
    ensures StringFrom(m, key) == Some(text) <==> key in m && m[key] == Str(text) && !Blank(text)
  {
    if key in m && m[key].Str? { TrimsToNothing(m[key].text); }
  }

  // ---- Tables -------------------------------------------------------------

  function Merged(row: Row): map<string, Value> {
    row.data + map k | k in row.secrets :: Str(row.secrets[k])
  }

  function MergedRows(rows: seq<Row>): seq<map<string, Value>> {
    if rows == [] then [] else MergedRows(rows[..|rows| - 1]) + [Merged(rows[|rows| - 1])]
  }

  /** A file row with its secret columns resolved; absent when a reference is bad. */
  function FileRow(readers: Readers, row: map<string, Value>, columns: seq<Column>): Option<map<string, Value>> {
    if columns == [] then Some(row) else
      var col := columns[|columns| - 1];
      match FileRow(readers, row, columns[..|columns| - 1])
      case None => None
      case Some(out) =>
        if !col.secret || StringFrom(row, col.key + REF).None? then Some(out) else
        match readers.resolve(StringFrom(row, col.key + REF).value)
        case None => None
        case Some(v) => Some(out[col.key := Str(v)] - {col.key + REF})
  }

  function FileRows(readers: Readers, f: Field, items: seq<Value>): Result<seq<map<string, Value>>, Trouble> {
    if items == [] then Ok([]) else
      var n := |items| - 1;
      match FileRows(readers, f, items[..n])
      case Err(e) => Err(e)
      case Ok(out) =>
        if !items[n].Table? then Err(BadRow(f.key, n)) else
        match FileRow(readers, items[n].entries, f.columns)
        case None => Err(BadRow(f.key, n))
        case Some(row) => Ok(out + [row])
  }

  /** Stored rows win outright; otherwise the file's list. */
  function TableOf(ins: Inputs, f: Field): Result<seq<map<string, Value>>, Trouble> {
    if f.key in ins.rows && ins.rows[f.key] != [] then Ok(MergedRows(ins.rows[f.key]))
    else if f.key !in ins.file then Ok([])
    else if !ins.file[f.key].Items? then Err(NotAList(f.key))
    else FileRows(ins.readers, f, ins.file[f.key].items)
  }

  /** A stored row under each key: its secret, or else its plain column. */
  lemma MergedExactly(row: Row, key: string)
    ensures Get(Merged(row), key)
            == if key in row.secrets then Some(Str(row.secrets[key])) else Get(row.data, key)
  {
  }

  lemma {:induction false} MergedRowsAt(rows: seq<Row>, i: nat)
    requires i < |rows|
    ensures |MergedRows(rows)| == |rows| && MergedRows(rows)[i] == Merged(rows[i])
  {
    var n := |rows| - 1;
    if n == 0 {
    } else {
      MergedRowsAt(rows[..n], if i < n then i else 0);
    }
  }

  /** An entry of the file's list that makes a row. */
  predicate GoodItem(readers: Readers, f: Field, item: Value) {
    item.Table? && FileRow(readers, item.entries, f.columns).Some?
  }

  /** The file's list row by row, or the first entry that does not make one. */
  lemma {:induction false} FileRowsExactly(readers: Readers, f: Field, items: seq<Value>, i: nat)
    requires i < |items|
    ensures FileRows(readers, f, items).Ok? <==> forall j | 0 <= j < |items| :: GoodItem(readers, f, items[j])
    ensures FileRows(readers, f, items).Ok? ==>
              && |FileRows(readers, f, items).value| == |items|
              && FileRow(readers, items[i].entries, f.columns) == Some(FileRows(readers, f, items).value[i])
    ensures FileRows(readers, f, items) == Err(BadRow(f.key, i))
            <==> !GoodItem(readers, f, items[i]) && forall j | 0 <= j < i :: GoodItem(readers, f, items[j])
  {
    var n := |items| - 1;
    if n == 0 {
      assert items[..n] == [];
    } else {
      FileRowsExactly(readers, f, items[..n], if i < n then i else 0);
      FileRowsTrouble(readers, f, items[..n]);
    }
  }

  lemma {:induction false} FileRowsTrouble(readers: Readers, f: Field, items: seq<Value>)
    ensures FileRows(readers, f, items).Err? ==>
              exists j: nat :: j < |items| && FileRows(readers, f, items).error == BadRow(f.key, j)
  {
    if items == [] {
    } else {
      FileRowsTrouble(readers, f, items[..|items| - 1]);
    }
  }

  /** Where a table comes from. */
  lemma TableComesFrom(ins: Inputs, f: Field)
    ensures f.key in ins.rows && |ins.rows[f.key]| > 0 ==>
              TableOf(ins, f).Ok? && |TableOf(ins, f).value| == |ins.rows[f.key]|
              && forall i | 0 <= i < |ins.rows[f.key]| :: TableOf(ins, f).value[i] == Merged(ins.rows[f.key][i])
    ensures !(f.key in ins.rows && |ins.rows[f.key]| > 0) ==>
              TableOf(ins, f) == if f.key !in ins.file then Ok([])
                                 else if ins.file[f.key].Items? then FileRows(ins.readers, f, ins.file[f.key].items)
                                 else Err(NotAList(f.key))
  {
    if f.key in ins.rows && |ins.rows[f.key]| > 0 {
      MergedRowsAt(ins.rows[f.key], 0);
      forall i | 0 <= i < |ins.rows[f.key]| ensures TableOf(ins, f).value[i] == Merged(ins.rows[f.key][i]) {
        MergedRowsAt(ins.rows[f.key], i);
      }
    }
  }

  method MergeFileRow(readers: Readers, row: map<string, Value>, columns: seq<Column>)
    returns (out: Option<map<string, Value>>)
    ensures out == FileRow(readers, row, columns)
  {
    var merged := row;
    for i := 0 to |columns|
      invariant FileRow(readers, row, columns[..i]) == Some(merged)
    {
      var col := columns[i];
      assert columns[..i + 1][..i] == columns[..i];
      if col.secret {
        var ref := StringFrom(row, col.key + REF);
        if ref.Some? {
          var v := readers.resolve(ref.value);
          if v.None? {
            FileRowFails(readers, row, columns, i + 1);
            return None;
          }
          merged := merged[col.key := Str(v.value)] - {col.key + REF};
        }
      }
    }
    assert columns[..|columns|] == columns;
    return Some(merged);
  }

  lemma {:induction false} FileRowFails(readers: Readers, row: map<string, Value>, columns: seq<Column>, i: nat)
    requires i <= |columns| && FileRow(readers, row, columns[..i]) == None
    ensures FileRow(readers, row, columns) == None
    decreases |columns| - i
  {
    if i == |columns| {
      assert columns[..i] == columns;
    } else {
      assert columns[..i + 1][..i] == columns[..i];
      FileRowFails(readers, row, columns, i + 1);
    }
  }

  /** A secret column whose reference the row gives: its value replaces the reference. */
  predicate Replaces(row: map<string, Value>, col: Column, key: string) {
    col.secret && StringFrom(row, col.key + REF).Some? && (key == col.key || key == col.key + REF)
  }

  /** The last column that replaces something under the key. */
  function LastReplacing(row: map<string, Value>, columns: seq<Column>, key: string): (r: Option<Column>)
    ensures r.Some? ==> r.value in columns && Replaces(row, r.value, key)
  {
    if columns == [] then None
    else if Replaces(row, columns[|columns| - 1], key) then Some(columns[|columns| - 1])
    else LastReplacing(row, columns[..|columns| - 1], key)
  }

  /**
   What a row of the file's table holds under each key once its references are
   resolved. A reference no secret column claims stays in the row as it is.
   */
  lemma {:induction false} RowKeysExactly(readers: Readers, row: map<string, Value>, columns: seq<Column>, key: string)
    requires FileRow(readers, row, columns).Some?
    ensures var got := Get(FileRow(readers, row, columns).value, key);
            match LastReplacing(row, columns, key)
            case None => got == Get(row, key)
            case Some(col) =>
              if key != col.key then got == None
              else var v := readers.resolve(StringFrom(row, col.key + REF).value); v.Some? && got == Some(Str(v.value))
  {
    if columns == [] {
    } else {
      RowKeysExactly(readers, row, columns[..|columns| - 1], key);
    }
  }

  /** A reference beside a secret column gives way to what it resolves to, or spoils the row. */
  lemma SecretColumnResolves(readers: Readers, row: map<string, Value>, key: string, text: string)
    requires key + "_ref" in row && row[key + "_ref"] == Str(text) && !Blank(text)
    ensures FileRow(readers, row, [Column(key, true)])
            == if readers.resolve(text).None? then None
               else Some(row[key := Str(readers.resolve(text).value)] - {key + "_ref"})
  {
    assert [Column(key, true)][..0] == [];
    StringFromExactly(row, key + REF, text);
  }

  /** A reference beside a column that is not secret goes to the plugin unresolved. */
  lemma RowReferencePasses(readers: Readers, row: map<string, Value>, key: string)
    requires key + REF in row
    ensures FileRow(readers, row, [Column(key, false)]) == Some(row)
  {
    assert [Column(key, false)][..0] == [];
  }

  method CollectionRows(ins: Inputs, f: Field) returns (r: Result<seq<map<string, Value>>, Trouble>)
    ensures r == TableOf(ins, f)
  {
    if f.key in ins.rows && ins.rows[f.key] != [] {
      var stored := ins.rows[f.key];
      var out := [];
      for i := 0 to |stored|
        invariant out == MergedRows(stored[..i])
      {
        assert stored[..i + 1][..i] == stored[..i];
        out := out + [Merged(stored[i])];
      }
      assert stored[..|stored|] == stored;
      return Ok(out);
    }
    if f.key !in ins.file { return Ok([]); }
    if !ins.file[f.key].Items? { return Err(NotAList(f.key)); }
    var items := ins.file[f.key].items;
    var out := [];
    for i := 0 to |items|
      invariant FileRows(ins.readers, f, items[..i]) == Ok(out)
    {
      assert items[..i + 1][..i] == items[..i];
      if !items[i].Table? {
        FileRowsFail(ins.readers, f, items, i + 1);
        return Err(BadRow(f.key, i));
      }
      var row := MergeFileRow(ins.readers, items[i].entries, f.columns);
      if row.None? {
        FileRowsFail(ins.readers, f, items, i + 1);
        return Err(BadRow(f.key, i));
      }
      out := out + [row.value];
    }
    assert items[..|items|] == items;
    return Ok(out);
  }

  lemma {:induction false} FileRowsFail(readers: Readers, f: Field, items: seq<Value>, i: nat)
    requires i <= |items| && FileRows(readers, f, items[..i]).Err?
    ensures FileRows(readers, f, items) == FileRows(readers, f, items[..i])
    decreases |items| - i
  {
    if i == |items| {
      assert items[..i] == items;
    } else {
      assert items[..i + 1][..i] == items[..i];
      FileRowsFail(readers, f, items, i + 1);
    }
  }

  // ---- Fields -------------------------------------------------------------

  /** The value of one field, absent when no source has one. */
  function FieldValue(ins: Inputs, f: Field): Result<Option<Value>, Trouble> {
    match f.kind
    case Collection =>
      (match TableOf(ins, f) case Err(e) => Err(e) case Ok(rows) => Ok(Some(Rows(rows))))
    case Secret =>
      if f.key in ins.stored && ins.stored[f.key] != "" then Ok(Some(Str(ins.stored[f.key]))) else
      (match StringFrom(ins.file, f.key + REF)
       case Some(ref) =>
         (match ins.readers.resolve(ref) case None => Err(BadReference(f.key)) case Some(v) => Ok(Some(Str(v))))
       case None =>
         (match StringFrom(ins.file, f.key) case Some(v) => Ok(Some(Str(v))) case None => Ok(None)))
    case Scalar(_) =>
      if f.key in ins.stored && ins.stored[f.key] != "" then Ok(Some(ins.readers.decode(f.kind, ins.stored[f.key])))
      else if f.key in ins.file then Ok(Some(ins.file[f.key]))
      else Ok(f.default)
  }

  /** The declared fields' values, or the first trouble met. */
  function Filled(ins: Inputs, fields: seq<Field>): Result<map<string, Value>, Trouble> {
    if fields == [] then Ok(map[]) else
      var f := fields[|fields| - 1];
      match Filled(ins, fields[..|fields| - 1])
      case Err(e) => Err(e)
      case Ok(out) =>
        match FieldValue(ins, f)
        case Err(e) => Err(e)
        case Ok(None) => Ok(out)
        case Ok(Some(v)) => Ok(out[f.key := v])
  }

  /** What the file carries and no field declares comes along, references apart. */
  function PassedThrough(out: map<string, Value>, file: map<string, Value>): map<string, Value> {
    out + map k | k in file && k !in out && !IsReference(k) :: file[k]
  }

  lemma PassedNext(out: map<string, Value>, part: map<string, Value>, k: string, v: Value)
    requires k !in part
    ensures k in PassedThrough(out, part) <==> k in out
    ensures PassedThrough(out, part[k := v])
            == if k in out || IsReference(k) then PassedThrough(out, part) else PassedThrough(out, part)[k := v]
  {
  }

  method PassThrough(filled: map<string, Value>, file: map<string, Value>) returns (out: map<string, Value>)
    ensures out == PassedThrough(filled, file)
  {
    out := filled;
    var keys := file.Keys;
    ghost var done: map<string, Value> := map[];
    assert PassedThrough(filled, done) == filled;
    while keys != {}
      invariant keys <= file.Keys
      invariant done == map k | k in file && k !in keys :: file[k]
      invariant out == PassedThrough(filled, done)
      decreases keys
    {
      var k :| k in keys;
      keys := keys - {k};
      PassedNext(filled, done, k, file[k]);
      done := done[k := file[k]];
      if k in out || IsReference(k) { continue; }
      out := out[k := file[k]];
    }
    assert done == file;
  }

  function Resolved(ins: Inputs, fields: seq<Field>): Result<map<string, Value>, Trouble> {
    match Filled(ins, fields)
    case Err(e) => Err(e)
    case Ok(out) => Ok(PassedThrough(out, ins.file))
  }

  lemma {:induction false} FilledFails(ins: Inputs, fields: seq<Field>, i: nat)
    requires i <= |fields| && Filled(ins, fields[..i]).Err?
    ensures Filled(ins, fields) == Filled(ins, fields[..i])
    decreases |fields| - i
  {
    if i == |fields| {
      assert fields[..i] == fields;
    } else {
      assert fields[..i + 1][..i] == fields[..i];
      FilledFails(ins, fields, i + 1);
    }
  }

  method ResolveFields(ins: Inputs, fields: seq<Field>) returns (r: Result<map<string, Value>, Trouble>)
    ensures r == Resolved(ins, fields)
  {
    var out: map<string, Value> := map[];
    for i := 0 to |fields|
      invariant Filled(ins, fields[..i]) == Ok(out)
    {
      var f := fields[i];
      assert fields[..i + 1][..i] == fields[..i];
      if f.kind == Collection {
        var rows := CollectionRows(ins, f);
        if rows.Err? {
          FilledFails(ins, fields, i + 1);
          return Err(rows.error);
        }
        out := out[f.key := Rows(rows.value)];
      } else if f.kind == Secret {
        if f.key in ins.stored && ins.stored[f.key] != "" {
          out := out[f.key := Str(ins.stored[f.key])];
          continue;
        }
        var ref := StringFrom(ins.file, f.key + REF);
        if ref.Some? {
          var v := ins.readers.resolve(ref.value);
          if v.None? {
            FilledFails(ins, fields, i + 1);
            return Err(BadReference(f.key));
          }
          out := out[f.key := Str(v.value)];
          continue;
        }
        var literal := StringFrom(ins.file, f.key);
        if literal.Some? { out := out[f.key := Str(literal.value)]; }
      } else {
        if f.key in ins.stored && ins.stored[f.key] != "" {
          out := out[f.key := ins.readers.decode(f.kind, ins.stored[f.key])];
        } else if f.key in ins.file {
          out := out[f.key := ins.file[f.key]];
        } else if f.default.Some? {
          out := out[f.key := f.default.value];
        }
      }
    }
    assert fields[..|fields|] == fields;
    out := PassThrough(out, ins.file);
    return Ok(out);
  }

  /** Resolving fails with the first field's trouble, and only then. */
  lemma {:induction false} FirstTrouble(ins: Inputs, fields: seq<Field>, i: nat)
    requires i < |fields| && FieldValue(ins, fields[i]).Err? && forall j | 0 <= j < i :: FieldValue(ins, fields[j]).Ok?
    ensures Resolved(ins, fields) == Err(FieldValue(ins, fields[i]).error)
  {
    var n := |fields| - 1;
    if i == n {
      NoTrouble(ins, fields[..n]);
    } else {
      FirstTrouble(ins, fields[..n], i);
    }
  }

  lemma {:induction false} NoTrouble(ins: Inputs, fields: seq<Field>)
    requires forall f | f in fields :: FieldValue(ins, f).Ok?
    ensures Filled(ins, fields).Ok? && Resolved(ins, fields).Ok?
  {
    if fields == [] {
    } else {
      NoTrouble(ins, fields[..|fields| - 1]);
      assert fields[|fields| - 1] in fields;
    }
  }

  predicate DistinctFields(fields: seq<Field>) {
    forall i, j | 0 <= i < j < |fields| :: fields[i].key != fields[j].key
  }

  /** Among the declared fields, each has the value its own sources give it. */
  lemma {:induction false} FilledDecides(ins: Inputs, fields: seq<Field>, i: nat)
    requires DistinctFields(fields) && i < |fields| && Filled(ins, fields).Ok?
    ensures FieldValue(ins, fields[i]).Ok?
    ensures var v, out := FieldValue(ins, fields[i]).value, Filled(ins, fields).value;
            if v.Some? then fields[i].key in out && out[fields[i].key] == v.value else fields[i].key !in out
  {
    var n := |fields| - 1;
    if i < n {
      FilledDecides(ins, fields[..n], i);
    } else {
      FilledKeys(ins, fields[..n], fields[n].key);
    }
  }

  /**
   Each declared field resolves to the value its own sources give it. One they give
   none is left to what the file holds under its key, a reference apart.
   */
  lemma FieldDecides(ins: Inputs, fields: seq<Field>, i: nat)
    requires DistinctFields(fields) && i < |fields| && Resolved(ins, fields).Ok?
    ensures FieldValue(ins, fields[i]).Ok?
    ensures var v, key, out := FieldValue(ins, fields[i]).value, fields[i].key, Resolved(ins, fields).value;
            if v.Some? then key in out && out[key] == v.value
            else (key in out <==> key in ins.file && !IsReference(key)) && (key in out ==> out[key] == ins.file[key])
  {
    FilledDecides(ins, fields, i);
  }

  lemma {:induction false} FilledKeys(ins: Inputs, fields: seq<Field>, key: string)
    requires Filled(ins, fields).Ok? && forall f | f in fields :: f.key != key
    ensures key !in Filled(ins, fields).value
  {
    if fields == [] {
    } else {
      FilledKeys(ins, fields[..|fields| - 1], key);
    }
  }

  /** Where a declared field's value comes from, in order of precedence. */
  lemma StoreThenFileThenDefault(ins: Inputs, fields: seq<Field>, i: nat)
    requires DistinctFields(fields) && i < |fields| && Resolved(ins, fields).Ok? && fields[i].kind.Scalar?
    ensures var f, out := fields[i], Resolved(ins, fields).value;
            if f.key in ins.stored && ins.stored[f.key] != "" then
              f.key in out && out[f.key] == ins.readers.decode(f.kind, ins.stored[f.key])
            else if f.key in ins.file then f.key in out && out[f.key] == ins.file[f.key]
            else (f.key in out <==> f.default.Some?) && (f.key in out ==> out[f.key] == f.default.value)
  {
    FieldDecides(ins, fields, i);
  }

  /** Where a credential comes from: the store, then a reference, then the file's own text. */
  lemma StoreThenReferenceThenText(ins: Inputs, fields: seq<Field>, i: nat)
    requires DistinctFields(fields) && i < |fields| && Resolved(ins, fields).Ok? && fields[i].kind == Secret
    ensures var key, out := fields[i].key, Resolved(ins, fields).value;
            var ref := StringFrom(ins.file, key + "_ref");
            if key in ins.stored && ins.stored[key] != "" then key in out && out[key] == Str(ins.stored[key])
            else if ref.Some? then
              key in out && ins.readers.resolve(ref.value).Some?
              && out[key] == Str(ins.readers.resolve(ref.value).value)
            else (key in out <==> key in ins.file && (!IsReference(key) || StringFrom(ins.file, key).Some?))
                 && (key in out ==> out[key] == ins.file[key])
  {
    FieldDecides(ins, fields, i);
  }

  /** Whether some field declares the key. */
  predicate DeclaresKey(fields: seq<Field>, key: string) {
    exists f | f in fields :: f.key == key
  }

  lemma {:induction false} FilledIsDeclared(ins: Inputs, fields: seq<Field>, key: string)
    requires Filled(ins, fields).Ok? && key in Filled(ins, fields).value
    ensures DeclaresKey(fields, key)
  {
    if !DeclaresKey(fields, key) { FilledKeys(ins, fields, key); }
  }

  /** Of the keys no field declares, a plugin is handed exactly what the file holds, references apart. */
  lemma NoReferenceIsPassed(ins: Inputs, fields: seq<Field>, key: string)
    requires Resolved(ins, fields).Ok? && !DeclaresKey(fields, key)
    ensures var out := Resolved(ins, fields).value;
            (key in out <==> key in ins.file && !IsReference(key)) && (key in out ==> out[key] == ins.file[key])
  {
    if key in Filled(ins, fields).value { FilledIsDeclared(ins, fields, key); }
  }

  // ---- Readiness ----------------------------------------------------------

  predicate IsEmpty(v: Value) {
    match v
    case Str(s) => Trim(s) == ""
    case Rows(rows) => rows == []
    case Items(items) => items == []
    case _ => false
  }

  /** Every required field has a value that is not empty. */
  predicate Complete(fields: seq<Field>, values: map<string, Value>) {
    forall f | f in fields && f.required :: f.key in values && !IsEmpty(values[f.key])
  }
}
