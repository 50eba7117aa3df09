/** The strict schema check: walks a document and reports the first key or value that does not belong. */
module SchemaWalker {
  import opened Options
  import opened Toml
  import opened SchemaGrammar

  datatype Reason = UnknownKey | NotAnEnvironment | MissingKey | ExpectedTable | ExpectedArray | ExpectedFlagOrArray

  datatype SchemaError = SchemaError(path: Path, reason: Reason)

  datatype Result = Pass | Fail(error: SchemaError)

  // ---------- what the first error is ----------

  ghost predicate TableBlames(entries: seq<Field>, schema: TableSchema, path: Path, e: SchemaError)
    decreases entries, 2
  {
    exists i | 0 <= i < |entries| ::
      && (forall j | 0 <= j < i :: FieldConforms(entries[j], schema))
      && FieldBlames(entries[i], schema, path + [Key(entries[i].key)], e)
  }

  ghost predicate FieldBlames(f: Field, schema: TableSchema, full: Path, e: SchemaError)
    decreases f, 4
  {
    match FieldShape(schema, f.key)
    case Some(shape) => Blames(f.value, shape, full, e)
    case None =>
      if f.value.Tab? && schema.overlay.Some? then
        if IsEnvName(f.key) then TableBlames(f.value.entries, schema.overlay.value, full, e)
        else e == SchemaError(full, NotAnEnvironment)
      else if !f.value.Tab? && schema.openValues then
        schema.openEnvs && !IsEnvName(f.key) && e == SchemaError(full, NotAnEnvironment)
      else e == SchemaError(full, UnknownKey)
  }

  /** The first required key that a row leaves out. */
  ghost predicate MissingBlames(schema: TableSchema, entries: seq<Field>, path: Path, e: SchemaError) {
    exists r | 0 <= r < |schema.required| ::
      && (forall q | 0 <= q < r :: Provides(schema, entries, schema.required[q]))
      && !Provides(schema, entries, schema.required[r])
      && e == SchemaError(path + [Key(schema.required[r])], MissingKey)
  }

  ghost predicate RowBlames(entries: seq<Field>, schema: TableSchema, path: Path, e: SchemaError)
    decreases entries, 3
  {
    if TableConforms(entries, schema) then MissingBlames(schema, entries, path, e)
    else TableBlames(entries, schema, path, e)
  }

  ghost predicate RowsBlame(rows: seq<Row>, schema: TableSchema, path: Path, e: SchemaError)
    decreases rows, 3
  {
    exists i | 0 <= i < |rows| ::
      && (forall j | 0 <= j < i :: RowConforms(rows[j].entries, schema))
      && RowBlames(rows[i].entries, schema, path + [Index(i)], e)
  }

  ghost predicate ItemsBlame(items: seq<Value>, schema: TableSchema, path: Path, e: SchemaError)
    decreases items, 3
  {
    exists i | 0 <= i < |items| ::
      && (forall j | 0 <= j < i :: ItemConforms(items[j], schema))
      && ItemBlames(items[i], schema, path + [Index(i)], e)
  }

  ghost predicate ItemBlames(item: Value, schema: TableSchema, at: Path, e: SchemaError)
    decreases item, 3
  {
    if item.Tab? then RowBlames(item.entries, schema, at, e) else e == SchemaError(at, ExpectedTable)
  }

  ghost predicate ArrayBlames(v: Value, schema: TableSchema, path: Path, e: SchemaError)
    decreases v, 3
  {
    match v
    case Rows(rows) => RowsBlame(rows, schema, path, e)
    case Array(items) => ItemsBlame(items, schema, path, e)
    case _ => e == SchemaError(path, ExpectedArray)
  }

  ghost predicate InnerBlames(f: Field, path: Path, e: SchemaError)
    decreases f, 2
  {
    f.value.Tab? && TableBlames(f.value.entries, CALLER, path + [Key(f.key)], e)
  }

  ghost predicate CallerBlames(f: Field, full: Path, e: SchemaError)
    decreases f, 3
  {
    && f.value.Tab?
    && if HasCallerKey(f.value.entries) || f.value.entries == [] then TableBlames(f.value.entries, CALLER, full, e)
       else if !IsEnvName(f.key) then e == SchemaError(full, NotAnEnvironment)
       else OverlayBlames(f.value.entries, full, e)
  }

  ghost predicate OverlayBlames(entries: seq<Field>, full: Path, e: SchemaError)
    decreases entries, 3
  {
    exists i | 0 <= i < |entries| ::
      (forall j | 0 <= j < i :: InnerCallerConforms(entries[j])) && InnerBlames(entries[i], full, e)
  }

  ghost predicate CallersBlame(entries: seq<Field>, path: Path, e: SchemaError)
    decreases entries, 3
  {
    exists i | 0 <= i < |entries| ::
      && (forall j | 0 <= j < i :: CallerConforms(entries[j]))
      && CallerBlames(entries[i], path + [Key(entries[i].key)], e)
  }

  ghost predicate NamedBlames(f: Field, schema: TableSchema, full: Path, optional: bool, e: SchemaError)
    decreases f, 2
  {
    if f.value.Tab? then TableBlames(f.value.entries, schema, full, e)
    else !optional && e == SchemaError(full, ExpectedTable)
  }

  predicate NamedConforms(f: Field, schema: TableSchema, optional: bool) {
    if f.value.Tab? then TableConforms(f.value.entries, schema) else optional
  }

  ghost predicate Blames(v: Value, shape: Shape, path: Path, e: SchemaError)
    decreases v, 4
  {
    match shape
    case AnyValue => false
    case Free => false
    case TableOf(schema) =>
      if v.Tab? then TableBlames(v.entries, schema, path, e) else e == SchemaError(path, ExpectedTable)
    case ArrayOf(schema) => ArrayBlames(v, schema, path, e)
    case FlagOrArray(schema) =>
      !v.Bool? && if v.Rows? || v.Array? then ArrayBlames(v, schema, path, e)
                  else e == SchemaError(path, ExpectedFlagOrArray)
    case Callers =>
      if v.Tab? then CallersBlame(v.entries, path, e) else e == SchemaError(path, ExpectedTable)
    case Named(schema) =>
      if v.Tab? then NamedTableBlames(v.entries, schema, path, false, e) else e == SchemaError(path, ExpectedTable)
    case NamedOr(schema) =>
      if v.Tab? then NamedTableBlames(v.entries, schema, path, true, e) else e == SchemaError(path, ExpectedTable)
  }

  ghost predicate NamedTableBlames(entries: seq<Field>, schema: TableSchema, path: Path, optional: bool, e: SchemaError)
    decreases entries, 3
  {
    exists i | 0 <= i < |entries| ::
      && (forall j | 0 <= j < i :: NamedConforms(entries[j], schema, optional))
      && NamedBlames(entries[i], schema, path + [Key(entries[i].key)], optional, e)
  }

  // ---------- the walker ----------

  class Walker {
    var envs: seq<OverlayEnv>

    constructor ()
      ensures envs == []
    {
      envs := [];
    }

    method EnvName(env: string, full: Path) returns (r: Result)
      modifies this
      ensures r == if IsEnvName(env) then Pass else Fail(SchemaError(full, NotAnEnvironment))
      ensures envs == old(envs) + if r.Pass? then [OverlayEnv(env, full)] else []
    {
      if !IsEnvName(env) {
        return Fail(SchemaError(full, NotAnEnvironment));
      }
      envs := envs + [OverlayEnv(env, full)];
      return Pass;
    }

    method Required(entries: seq<Field>, schema: TableSchema, path: Path) returns (r: Result)
      ensures r.Pass? <==> HasRequired(schema, entries)
      ensures r.Fail? ==> MissingBlames(schema, entries, path, r.error)
    {
      for k := 0 to |schema.required|
        invariant forall q | 0 <= q < k :: Provides(schema, entries, schema.required[q])
      {
        if !Provides(schema, entries, schema.required[k]) {
          return Fail(SchemaError(path + [Key(schema.required[k])], MissingKey));
        }
      }
      return Pass;
    }

    method Table(entries: seq<Field>, schema: TableSchema, path: Path) returns (r: Result)
      modifies this
      ensures r.Pass? <==> TableConforms(entries, schema)
      ensures r.Pass? ==> envs == old(envs) + TableEnvs(entries, schema, path)
      ensures r.Fail? ==> TableBlames(entries, schema, path, r.error)
      decreases entries, 5
    {
      ghost var named := [];
      for i := 0 to |entries|
        invariant TableConforms(entries[..i], schema)
        invariant named == TableEnvs(entries[..i], schema, path)
        invariant envs == old(envs) + named
      {
        r := OneField(entries[i], schema, path + [Key(entries[i].key)]);
        if r.Fail? {
          StopsAt(entries, schema, path, i, r.error);
          return;
        }
        GoesOn(entries, schema, path, i);
        named := named + FieldEnvs(entries[i], schema, path + [Key(entries[i].key)]);
      }
      assert entries[..|entries|] == entries;
      return Pass;
    }

    method OneField(f: Field, schema: TableSchema, full: Path) returns (r: Result)
      modifies this
      ensures r.Pass? <==> FieldConforms(f, schema)
      ensures r.Pass? ==> envs == old(envs) + FieldEnvs(f, schema, full)
      ensures r.Fail? ==> FieldBlames(f, schema, full, r.error)
      decreases f, 6
    {
      var shape := FieldShape(schema, f.key);
      if shape.Some? {
        r := OneShape(f.value, shape.value, full);
        return;
      }
      if f.value.Tab? && schema.overlay.Some? {
        r := EnvName(f.key, full);
        if r.Fail? { return; }
        r := Table(f.value.entries, schema.overlay.value, full);
      } else if !f.value.Tab? && schema.openValues {
        r := Pass;
        if schema.openEnvs { r := EnvName(f.key, full); }
      } else {
        r := Fail(SchemaError(full, UnknownKey));
      }
    }

    method OneRow(entries: seq<Field>, schema: TableSchema, at: Path) returns (r: Result)
      modifies this
      ensures r.Pass? <==> RowConforms(entries, schema)
      ensures r.Pass? ==> envs == old(envs) + TableEnvs(entries, schema, at)
      ensures r.Fail? ==> RowBlames(entries, schema, at, r.error)
      decreases entries, 6
    {
      r := Table(entries, schema, at);
      if r.Pass? { r := Required(entries, schema, at); }
    }

    method OneShape(v: Value, shape: Shape, path: Path) returns (r: Result)
      modifies this
      ensures r.Pass? <==> Conforms(v, shape)
      ensures r.Pass? ==> envs == old(envs) + ShapeEnvs(v, shape, path)
      ensures r.Fail? ==> Blames(v, shape, path, r.error)
      decreases v, 9
    {
      match shape
      case AnyValue => r := Pass;
      case Free => r := Pass;
      case TableOf(schema) =>
        if !v.Tab? { return Fail(SchemaError(path, ExpectedTable)); }
        r := Table(v.entries, schema, path);
      case FlagOrArray(schema) =>
        if v.Bool? { return Pass; }
        if !v.Rows? && !v.Array? { return Fail(SchemaError(path, ExpectedFlagOrArray)); }
        r := ArrayOfTables(v, schema, path);
      case ArrayOf(schema) => r := ArrayOfTables(v, schema, path);
      case Callers =>
        if !v.Tab? { return Fail(SchemaError(path, ExpectedTable)); }
        r := CallerEntries(v.entries, path);
      case Named(schema) =>
        if !v.Tab? { return Fail(SchemaError(path, ExpectedTable)); }
        r := NamedTables(v.entries, schema, path, false);
      case NamedOr(schema) =>
        if !v.Tab? { return Fail(SchemaError(path, ExpectedTable)); }
        r := NamedTables(v.entries, schema, path, true);
    }

    method ArrayOfTables(v: Value, schema: TableSchema, path: Path) returns (r: Result)
      modifies this
      ensures r.Pass? <==> RowsConform(v, schema)
      ensures r.Pass? ==> envs == old(envs) + ArrayEnvs(v, schema, path)
      ensures r.Fail? ==> ArrayBlames(v, schema, path, r.error)
      decreases v, 8
    {
      if v.Rows? {
        r := TableRows(v.rows, schema, path);
      } else if v.Array? {
        r := InlineTables(v.items, schema, path);
      } else {
        r := Fail(SchemaError(path, ExpectedArray));
      }
    }

    method TableRows(rows: seq<Row>, schema: TableSchema, path: Path) returns (r: Result)
      modifies this
      ensures r.Pass? <==> forall i | 0 <= i < |rows| :: RowConforms(rows[i].entries, schema)
      ensures r.Pass? ==> envs == old(envs) + RowsEnvs(rows, schema, path)
      ensures r.Fail? ==> RowsBlame(rows, schema, path, r.error)
      decreases rows, 7
    {
      for i := 0 to |rows|
        invariant forall j | 0 <= j < i :: RowConforms(rows[j].entries, schema)
        invariant envs == old(envs) + RowsEnvs(rows[..i], schema, path)
      {
        assert rows[..i + 1][..i] == rows[..i];
        r := OneRow(rows[i].entries, schema, path + [Index(i)]);
        if r.Fail? { return; }
      }
      assert rows[..|rows|] == rows;
      return Pass;
    }

    method InlineTables(items: seq<Value>, schema: TableSchema, path: Path) returns (r: Result)
      modifies this
      ensures r.Pass? <==> forall i | 0 <= i < |items| :: ItemConforms(items[i], schema)
      ensures r.Pass? ==> envs == old(envs) + ItemsEnvs(items, schema, path)
      ensures r.Fail? ==> ItemsBlame(items, schema, path, r.error)
      decreases items, 7
    {
      for i := 0 to |items|
        invariant forall j | 0 <= j < i :: ItemConforms(items[j], schema)
        invariant envs == old(envs) + ItemsEnvs(items[..i], schema, path)
      {
        assert items[..i + 1][..i] == items[..i];
        if !items[i].Tab? { return Fail(SchemaError(path + [Index(i)], ExpectedTable)); }
        r := OneRow(items[i].entries, schema, path + [Index(i)]);
        if r.Fail? { return; }
      }
      assert items[..|items|] == items;
      return Pass;
    }

    method NamedTables(entries: seq<Field>, schema: TableSchema, path: Path, optional: bool) returns (r: Result)
      modifies this
      ensures r.Pass? <==> forall i | 0 <= i < |entries| :: NamedConforms(entries[i], schema, optional)
      ensures r.Pass? ==> envs == old(envs) + NamedEnvs(entries, schema, path)
      ensures r.Fail? ==> NamedTableBlames(entries, schema, path, optional, r.error)
      decreases entries, 7
    {
      ghost var named := [];
      for i := 0 to |entries|
        invariant forall j | 0 <= j < i :: NamedConforms(entries[j], schema, optional)
        invariant named == NamedEnvs(entries[..i], schema, path)
        invariant envs == old(envs) + named
      {
        r := OneNamed(entries[i], schema, path + [Key(entries[i].key)], optional);
        if r.Fail? { return; }
        NextNamed(entries, schema, path, i);
        named := named + OneNamedEnvs(entries[i], schema, path + [Key(entries[i].key)]);
      }
      assert entries[..|entries|] == entries;
      return Pass;
    }

    method OneNamed(f: Field, schema: TableSchema, full: Path, optional: bool) returns (r: Result)
      modifies this
      ensures r.Pass? <==> NamedConforms(f, schema, optional)
      ensures r.Pass? ==> envs == old(envs) + OneNamedEnvs(f, schema, full)
      ensures r.Fail? ==> NamedBlames(f, schema, full, optional, r.error)
      decreases f, 6
    {
      if f.value.Tab? {
        r := Table(f.value.entries, schema, full);
      } else if optional {
        r := Pass;
      } else {
        r := Fail(SchemaError(full, ExpectedTable));
      }
    }

    method CallerEntries(entries: seq<Field>, path: Path) returns (r: Result)
      modifies this
      ensures r.Pass? <==> forall i | 0 <= i < |entries| :: CallerConforms(entries[i])
      ensures r.Pass? ==> envs == old(envs) + CallersEnvs(entries, path)
      ensures r.Fail? ==> CallersBlame(entries, path, r.error)
      decreases entries, 8
    {
      for i := 0 to |entries|
        invariant forall j | 0 <= j < i :: CallerConforms(entries[j])
        invariant envs == old(envs) + CallersEnvs(entries[..i], path)
      {
        assert entries[..i + 1][..i] == entries[..i];
        if entries[i].value.Tab? {
          r := OneCaller(entries[i], path + [Key(entries[i].key)]);
          if r.Fail? { return; }
        }
      }
      assert entries[..|entries|] == entries;
      return Pass;
    }

    method OneCaller(f: Field, full: Path) returns (r: Result)
      requires f.value.Tab?
      modifies this
      ensures r.Pass? <==> CallerConforms(f)
      ensures r.Pass? ==> envs == old(envs) + OneCallerEnvs(f, full)
      ensures r.Fail? ==> CallerBlames(f, full, r.error)
      decreases f, 6
    {
      if HasCallerKey(f.value.entries) || f.value.entries == [] {
        r := Table(f.value.entries, CALLER, full);
        if r.Pass? { CallerTableNamesNothing(f.value.entries, full); }
        return;
      }
      r := EnvName(f.key, full);
      if r.Fail? { return; }
      r := InnerCallers(f.value.entries, full);
    }

    /** The entries of one [callers.<env>] overlay. */
    method InnerCallers(entries: seq<Field>, full: Path) returns (r: Result)
      modifies this
      ensures r.Pass? <==> forall i | 0 <= i < |entries| :: InnerCallerConforms(entries[i])
      ensures r.Pass? ==> envs == old(envs)
      ensures r.Fail? ==> OverlayBlames(entries, full, r.error)
      decreases entries, 7
    {
      for i := 0 to |entries|
        invariant forall j | 0 <= j < i :: InnerCallerConforms(entries[j])
        invariant envs == old(envs)
      {
        if entries[i].value.Tab? {
          var at := full + [Key(entries[i].key)];
          r := Table(entries[i].value.entries, CALLER, at);
          if r.Fail? { return; }
          CallerTableNamesNothing(entries[i].value.entries, at);
        }
      }
      return Pass;
    }
  }

  lemma CallerKeyNamesNothing(f: Field, full: Path)
    requires FieldConforms(f, CALLER)
    ensures FieldEnvs(f, CALLER, full) == []
  {
    var shape := FieldShape(CALLER, f.key);
    var at := FieldIndex(CALLER, CALLER.fields, f.key);
    assert at.Some? ==> CALLER.fields[at.value].shape in [AnyValue, Free];
  }

  lemma {:induction false} CallerTableNamesNothing(entries: seq<Field>, path: Path)
    requires TableConforms(entries, CALLER)
    ensures TableEnvs(entries, CALLER, path) == []
  {
    if entries != [] {
      var last := |entries| - 1;
      CallerTableNamesNothing(entries[..last], path);
      CallerKeyNamesNothing(entries[last], path + [Key(entries[last].key)]);
    }
  }

  /** The entry the walk stops at settles the verdict on the table. */
  lemma StopsAt(entries: seq<Field>, schema: TableSchema, path: Path, i: nat, e: SchemaError)
    requires i < |entries| && TableConforms(entries[..i], schema) && !FieldConforms(entries[i], schema)
    requires FieldBlames(entries[i], schema, path + [Key(entries[i].key)], e)
    ensures !TableConforms(entries, schema) && TableBlames(entries, schema, path, e)
  {
    forall j | 0 <= j < i ensures FieldConforms(entries[j], schema) {
      assert entries[j] == entries[..i][j];
    }
  }

  /** One more conforming entry appends what it names. */
  lemma GoesOn(entries: seq<Field>, schema: TableSchema, path: Path, i: nat)
    requires i < |entries| && TableConforms(entries[..i], schema) && FieldConforms(entries[i], schema)
    ensures TableConforms(entries[..i + 1], schema)
    ensures TableEnvs(entries[..i + 1], schema, path)
         == TableEnvs(entries[..i], schema, path) + FieldEnvs(entries[i], schema, path + [Key(entries[i].key)])
  {
    assert entries[..i + 1][..i] == entries[..i];
    var next := entries[..i + 1];
    forall j | 0 <= j < |next| ensures FieldConforms(next[j], schema) {
      assert j < i ==> next[j] == entries[..i][j];
    }
  }

  /** One more named table appends what it names. */
  lemma NextNamed(entries: seq<Field>, schema: TableSchema, path: Path, i: nat)
    requires i < |entries|
    ensures NamedEnvs(entries[..i + 1], schema, path)
         == NamedEnvs(entries[..i], schema, path) + OneNamedEnvs(entries[i], schema, path + [Key(entries[i].key)])
  {
    assert entries[..i + 1][..i] == entries[..i];
  }

  /** Checks a document: passes exactly when it conforms, with the overlay environments in document order;
      otherwise reports what is wrong first. */
  method Validate(root: seq<Field>, schema: TableSchema) returns (r: Result, envs: seq<OverlayEnv>)
    ensures r.Pass? <==> TableConforms(root, schema)
    ensures r.Pass? ==> envs == TableEnvs(root, schema, [])
    ensures r.Fail? ==> TableBlames(root, schema, [], r.error)
  {
    var walker := new Walker();
    r := walker.Table(root, schema, []);
    envs := walker.envs;
  }

  /** camelCase form of a key. */
  method CamelCase(key: string) returns (out: string)
    ensures out == Camel(key, false)
    ensures '_' !in out
  {
    out := [];
    var upper := false;
    for i := 0 to |key|
      invariant out + Camel(key[i..], upper) == Camel(key, false)
      invariant '_' !in out
    {
      assert key[i..][0] == key[i] && key[i..][1..] == key[i + 1..];
      if key[i] == '_' {
        upper := true;
      } else if upper {
        out := out + [Upper(key[i])];
        upper := false;
      } else {
        out := out + [key[i]];
      }
    }
  }
}
