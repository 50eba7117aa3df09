/** A document that does not conform has one first error, and a conforming one has none. */
module SchemaBlame {
  import opened Options
  import opened Toml
  import opened SchemaGrammar
  import opened SchemaWalker

  // ---------- at most one error, and only where something is wrong ----------

  lemma FieldOnce(f: Field, schema: TableSchema, full: Path, e: SchemaError, e': SchemaError)
    requires FieldBlames(f, schema, full, e) && FieldBlames(f, schema, full, e')
    ensures e == e' && !FieldConforms(f, schema)
    decreases f, 4
  {
    match FieldShape(schema, f.key)
    case Some(shape) => ValueOnce(f.value, shape, full, e, e');
    case None =>
      if f.value.Tab? && schema.overlay.Some? && IsEnvName(f.key) {
        TableOnce(f.value.entries, schema.overlay.value, full, e, e');
      }
  }

  lemma {:induction false} TableOnce(entries: seq<Field>, schema: TableSchema, path: Path, e: SchemaError,
                                     e': SchemaError)
    requires TableBlames(entries, schema, path, e) && TableBlames(entries, schema, path, e')
    ensures e == e' && !TableConforms(entries, schema)
    decreases entries, 2
  {
    var i :| 0 <= i < |entries| && (forall j | 0 <= j < i :: FieldConforms(entries[j], schema))
             && FieldBlames(entries[i], schema, path + [Key(entries[i].key)], e);
    var k :| 0 <= k < |entries| && (forall j | 0 <= j < k :: FieldConforms(entries[j], schema))
             && FieldBlames(entries[k], schema, path + [Key(entries[k].key)], e');
    FieldOnce(entries[i], schema, path + [Key(entries[i].key)], e, e);
    FieldOnce(entries[k], schema, path + [Key(entries[k].key)], e', e');
    assert i == k;
    FieldOnce(entries[i], schema, path + [Key(entries[i].key)], e, e');
  }

  lemma RowOnce(entries: seq<Field>, schema: TableSchema, path: Path, e: SchemaError, e': SchemaError)
    requires RowBlames(entries, schema, path, e) && RowBlames(entries, schema, path, e')
    ensures e == e' && !RowConforms(entries, schema)
    decreases entries, 3
  {
    if !TableConforms(entries, schema) { TableOnce(entries, schema, path, e, e'); }
  }

  lemma RowsOnce(rows: seq<Row>, schema: TableSchema, path: Path, e: SchemaError, e': SchemaError)
    requires RowsBlame(rows, schema, path, e) && RowsBlame(rows, schema, path, e')
    ensures e == e' && exists i | 0 <= i < |rows| :: !RowConforms(rows[i].entries, schema)
    decreases rows, 3
  {
    var i :| 0 <= i < |rows| && (forall j | 0 <= j < i :: RowConforms(rows[j].entries, schema))
             && RowBlames(rows[i].entries, schema, path + [Index(i)], e);
    var k :| 0 <= k < |rows| && (forall j | 0 <= j < k :: RowConforms(rows[j].entries, schema))
             && RowBlames(rows[k].entries, schema, path + [Index(k)], e');
    RowOnce(rows[i].entries, schema, path + [Index(i)], e, e);
    RowOnce(rows[k].entries, schema, path + [Index(k)], e', e');
    assert i == k;
    RowOnce(rows[i].entries, schema, path + [Index(i)], e, e');
  }

  lemma ItemOnce(item: Value, schema: TableSchema, at: Path, e: SchemaError, e': SchemaError)
    requires ItemBlames(item, schema, at, e) && ItemBlames(item, schema, at, e')
    ensures e == e' && !ItemConforms(item, schema)
    decreases item, 3
  {
    if item.Tab? { RowOnce(item.entries, schema, at, e, e'); }
  }

  lemma ItemsOnce(items: seq<Value>, schema: TableSchema, path: Path, e: SchemaError, e': SchemaError)
    requires ItemsBlame(items, schema, path, e) && ItemsBlame(items, schema, path, e')
    ensures e == e' && exists i | 0 <= i < |items| :: !ItemConforms(items[i], schema)
    decreases items, 3
  {
    var i :| 0 <= i < |items| && (forall j | 0 <= j < i :: ItemConforms(items[j], schema))
             && ItemBlames(items[i], schema, path + [Index(i)], e);
    var k :| 0 <= k < |items| && (forall j | 0 <= j < k :: ItemConforms(items[j], schema))
             && ItemBlames(items[k], schema, path + [Index(k)], e');
    ItemOnce(items[i], schema, path + [Index(i)], e, e);
    ItemOnce(items[k], schema, path + [Index(k)], e', e');
    assert i == k;
    ItemOnce(items[i], schema, path + [Index(i)], e, e');
  }

  lemma ArrayOnce(v: Value, schema: TableSchema, path: Path, e: SchemaError, e': SchemaError)
    requires ArrayBlames(v, schema, path, e) && ArrayBlames(v, schema, path, e')
    ensures e == e' && !RowsConform(v, schema)
    decreases v, 3
  {
    match v
    case Rows(rows) => RowsOnce(rows, schema, path, e, e');
    case Array(items) => ItemsOnce(items, schema, path, e, e');
    case _ =>
  }

  lemma InnerOnce(f: Field, path: Path, e: SchemaError, e': SchemaError)
    requires InnerBlames(f, path, e) && InnerBlames(f, path, e')
    ensures e == e' && !InnerCallerConforms(f)
    decreases f, 2
  {
    TableOnce(f.value.entries, CALLER, path + [Key(f.key)], e, e');
  }

  lemma OverlayOnce(entries: seq<Field>, full: Path, e: SchemaError, e': SchemaError)
    requires OverlayBlames(entries, full, e) && OverlayBlames(entries, full, e')
    ensures e == e' && exists i | 0 <= i < |entries| :: !InnerCallerConforms(entries[i])
    decreases entries, 3
  {
    var i :| 0 <= i < |entries| && (forall j | 0 <= j < i :: InnerCallerConforms(entries[j]))
             && InnerBlames(entries[i], full, e);
    var k :| 0 <= k < |entries| && (forall j | 0 <= j < k :: InnerCallerConforms(entries[j]))
             && InnerBlames(entries[k], full, e');
    InnerOnce(entries[i], full, e, e);
    InnerOnce(entries[k], full, e', e');
    assert i == k;
    InnerOnce(entries[i], full, e, e');
  }

  lemma CallerOnce(f: Field, full: Path, e: SchemaError, e': SchemaError)
    requires CallerBlames(f, full, e) && CallerBlames(f, full, e')
    ensures e == e' && !CallerConforms(f)
    decreases f, 3
  {
    var entries := f.value.entries;
    if HasCallerKey(entries) || entries == [] {
      TableOnce(entries, CALLER, full, e, e');
    } else if IsEnvName(f.key) {
      OverlayOnce(entries, full, e, e');
    }
  }

  lemma CallersOnce(entries: seq<Field>, path: Path, e: SchemaError, e': SchemaError)
    requires CallersBlame(entries, path, e) && CallersBlame(entries, path, e')
    ensures e == e' && exists i | 0 <= i < |entries| :: !CallerConforms(entries[i])
    decreases entries, 3
  {
    var i :| 0 <= i < |entries| && (forall j | 0 <= j < i :: CallerConforms(entries[j]))
             && CallerBlames(entries[i], path + [Key(entries[i].key)], e);
    var k :| 0 <= k < |entries| && (forall j | 0 <= j < k :: CallerConforms(entries[j]))
             && CallerBlames(entries[k], path + [Key(entries[k].key)], e');
    CallerOnce(entries[i], path + [Key(entries[i].key)], e, e);
    CallerOnce(entries[k], path + [Key(entries[k].key)], e', e');
    assert i == k;
    CallerOnce(entries[i], path + [Key(entries[i].key)], e, e');
  }

  lemma NamedOnce(f: Field, schema: TableSchema, full: Path, optional: bool, e: SchemaError, e': SchemaError)
    requires NamedBlames(f, schema, full, optional, e) && NamedBlames(f, schema, full, optional, e')
    ensures e == e' && !NamedConforms(f, schema, optional)
    decreases f, 2
  {
    if f.value.Tab? { TableOnce(f.value.entries, schema, full, e, e'); }
  }

  lemma NamedTableOnce(entries: seq<Field>, schema: TableSchema, path: Path, optional: bool, e: SchemaError,
                       e': SchemaError)
    requires NamedTableBlames(entries, schema, path, optional, e)
    requires NamedTableBlames(entries, schema, path, optional, e')
    ensures e == e' && exists i | 0 <= i < |entries| :: !NamedConforms(entries[i], schema, optional)
    decreases entries, 3
  {
    var i :| 0 <= i < |entries| && (forall j | 0 <= j < i :: NamedConforms(entries[j], schema, optional))
             && NamedBlames(entries[i], schema, path + [Key(entries[i].key)], optional, e);
    var k :| 0 <= k < |entries| && (forall j | 0 <= j < k :: NamedConforms(entries[j], schema, optional))
             && NamedBlames(entries[k], schema, path + [Key(entries[k].key)], optional, e');
    NamedOnce(entries[i], schema, path + [Key(entries[i].key)], optional, e, e);
    NamedOnce(entries[k], schema, path + [Key(entries[k].key)], optional, e', e');
    assert i == k;
    NamedOnce(entries[i], schema, path + [Key(entries[i].key)], optional, e, e');
  }

  lemma ValueOnce(v: Value, shape: Shape, path: Path, e: SchemaError, e': SchemaError)
    requires Blames(v, shape, path, e) && Blames(v, shape, path, e')
    ensures e == e' && !Conforms(v, shape)
    decreases v, 4
  {
    match shape
    case TableOf(schema) => if v.Tab? { TableOnce(v.entries, schema, path, e, e'); }
    case ArrayOf(schema) => ArrayOnce(v, schema, path, e, e');
    case FlagOrArray(schema) => if v.Rows? || v.Array? { ArrayOnce(v, schema, path, e, e'); }
    case Callers => if v.Tab? { CallersOnce(v.entries, path, e, e'); }
    case Named(schema) => if v.Tab? { NamedTableOnce(v.entries, schema, path, false, e, e'); }
    case NamedOr(schema) => if v.Tab? { NamedTableOnce(v.entries, schema, path, true, e, e'); }
    case AnyValue =>
    case Free =>
  }
}
