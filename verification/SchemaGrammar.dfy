/** The declarative grammar of `tonin.toml`: which tables conform to a schema, the environments they name,
    and what is wrong with the ones that do not conform. */
module SchemaGrammar {
  import opened Options
  import opened Toml

  /** What a key's value may be. */
  datatype Shape =
    | AnyValue
    | Free
    | TableOf(schema: TableSchema)
    | ArrayOf(schema: TableSchema)
    | FlagOrArray(schema: TableSchema)
    | Callers
    | Named(schema: TableSchema)
    | NamedOr(schema: TableSchema)

  datatype Known = Known(name: string, shape: Shape)

  datatype TableSchema = TableSchema(
    fields: seq<Known>,
    overlay: Option<TableSchema>,
    openValues: bool,
    openEnvs: bool,
    camel: bool,
    required: seq<string>)

  function Fixed(fields: seq<Known>): TableSchema {
    TableSchema(fields, None, false, false, false, [])
  }

  function WithOverlay(fields: seq<Known>, overlay: TableSchema): TableSchema {
    TableSchema(fields, Some(overlay), false, false, false, [])
  }

  const CALLER := Fixed([Known("namespace", AnyValue), Known("labels", Free), Known("service", AnyValue),
                         Known("ports", AnyValue)])
  const FQDN := Fixed([Known("name", AnyValue), Known("pattern", AnyValue), Known("ports", AnyValue)])
  const CIDR := Fixed([Known("cidr", AnyValue), Known("except", AnyValue), Known("ports", AnyValue)])
  const EGRESS_FIELDS := [Known("fqdns", ArrayOf(FQDN)), Known("cidrs", ArrayOf(CIDR)),
                          Known("kube_apiserver", AnyValue)]
  const EGRESS := WithOverlay(EGRESS_FIELDS, Fixed(EGRESS_FIELDS))

  // ---------- names ----------

  predicate IsLowerOrDigit(c: char) {
    'a' <= c <= 'z' || '0' <= c <= '9'
  }

  /** An environment name: lowercase letters, digits and inner dashes. */
  predicate IsEnvName(s: string) {
    && s != []
    && (forall i | 0 <= i < |s| :: IsLowerOrDigit(s[i]) || s[i] == '-')
    && s[0] != '-' && s[|s| - 1] != '-'
  }

  function Upper(c: char): char {
    if 'a' <= c <= 'z' then c - 'a' + 'A' else c
  }

  /** snake_case to camelCase; upper says that an underscore was just dropped. */
  function Camel(key: string, upper: bool): string {
    if key == [] then []
    else if key[0] == '_' then Camel(key[1..], true)
    else [if upper then Upper(key[0]) else key[0]] + Camel(key[1..], false)
  }

  predicate Matches(schema: TableSchema, field: string, key: string) {
    field == key || (schema.camel && Camel(field, false) == key)
  }

  /** The index of the first field a key names. */
  function FieldIndex(schema: TableSchema, fields: seq<Known>, key: string): (r: Option<nat>)
    ensures r.Some? ==> r.value < |fields| && Matches(schema, fields[r.value].name, key)
    ensures r.None? <==> forall i | 0 <= i < |fields| :: !Matches(schema, fields[i].name, key)
    ensures r.Some? ==> forall i | 0 <= i < r.value :: !Matches(schema, fields[i].name, key)
  {
    if fields == [] then None
    else if Matches(schema, fields[0].name, key) then Some(0)
    else match FieldIndex(schema, fields[1..], key) case None => None case Some(i) => Some(i + 1)
  }

  function FieldShape(schema: TableSchema, key: string): Option<Shape> {
    match FieldIndex(schema, schema.fields, key)
    case None => None
    case Some(i) => Some(schema.fields[i].shape)
  }

  predicate Provides(schema: TableSchema, entries: seq<Field>, name: string) {
    exists i | 0 <= i < |entries| :: Matches(schema, name, entries[i].key)
  }

  predicate HasRequired(schema: TableSchema, entries: seq<Field>) {
    forall r | 0 <= r < |schema.required| :: Provides(schema, entries, schema.required[r])
  }

  /** A [callers] sub-table holding a caller key is a caller; so is an empty one. */
  predicate HasCallerKey(entries: seq<Field>) {
    exists i | 0 <= i < |entries| :: exists f | 0 <= f < |CALLER.fields| :: CALLER.fields[f].name == entries[i].key
  }

  // ---------- conformance ----------

  predicate TableConforms(entries: seq<Field>, schema: TableSchema)
    decreases entries, 1
  {
    forall i | 0 <= i < |entries| :: FieldConforms(entries[i], schema)
  }

  predicate FieldConforms(f: Field, schema: TableSchema)
    decreases f, 3
  {
    match FieldShape(schema, f.key)
    case Some(shape) => Conforms(f.value, shape)
    case None =>
      if f.value.Tab? then
        schema.overlay.Some? && IsEnvName(f.key) && TableConforms(f.value.entries, schema.overlay.value)
      else schema.openValues && (schema.openEnvs ==> IsEnvName(f.key))
  }

  predicate RowConforms(row: seq<Field>, schema: TableSchema)
    decreases row, 2
  {
    TableConforms(row, schema) && HasRequired(schema, row)
  }

  predicate Conforms(v: Value, shape: Shape)
    decreases v, 3
  {
    match shape
    case AnyValue => true
    case Free => true
    case TableOf(schema) => v.Tab? && TableConforms(v.entries, schema)
    case ArrayOf(schema) => RowsConform(v, schema)
    case FlagOrArray(schema) => v.Bool? || RowsConform(v, schema)
    case Callers => v.Tab? && forall i | 0 <= i < |v.entries| :: CallerConforms(v.entries[i])
    case Named(schema) =>
      v.Tab? && forall i | 0 <= i < |v.entries| ::
        v.entries[i].value.Tab? && TableConforms(v.entries[i].value.entries, schema)
    case NamedOr(schema) =>
      v.Tab? && forall i | 0 <= i < |v.entries| ::
        v.entries[i].value.Tab? ==> TableConforms(v.entries[i].value.entries, schema)
  }

  predicate RowsConform(v: Value, schema: TableSchema)
    decreases v, 2
  {
    || (v.Rows? && forall i | 0 <= i < |v.rows| :: RowConforms(v.rows[i].entries, schema))
    || (v.Array? && forall i | 0 <= i < |v.items| :: ItemConforms(v.items[i], schema))
  }

  predicate ItemConforms(v: Value, schema: TableSchema)
    decreases v, 1
  {
    v.Tab? && RowConforms(v.entries, schema)
  }

  /** One [callers] entry: a namespace value, a caller table, or an overlay of such entries. */
  predicate CallerConforms(f: Field)
    decreases f, 2
  {
    f.value.Tab? ==>
      if HasCallerKey(f.value.entries) || f.value.entries == [] then TableConforms(f.value.entries, CALLER)
      else
        IsEnvName(f.key)
        && forall i | 0 <= i < |f.value.entries| :: InnerCallerConforms(f.value.entries[i])
  }

  predicate InnerCallerConforms(f: Field)
    decreases f, 1
  {
    f.value.Tab? ==> TableConforms(f.value.entries, CALLER)
  }

  // ---------- environments named by overlays, in document order ----------

  datatype Seg = Key(key: string) | Index(i: nat)

  type Path = seq<Seg>

  datatype OverlayEnv = OverlayEnv(env: string, location: Path)

  function TableEnvs(entries: seq<Field>, schema: TableSchema, path: Path): seq<OverlayEnv>
    decreases entries, 2
  {
    if entries == [] then []
    else
      assert entries[..|entries| - 1] < entries;
      TableEnvs(entries[..|entries| - 1], schema, path)
      + FieldEnvs(entries[|entries| - 1], schema, path + [Key(entries[|entries| - 1].key)])
  }

  function FieldEnvs(f: Field, schema: TableSchema, full: Path): seq<OverlayEnv>
    decreases f, 3
  {
    match FieldShape(schema, f.key)
    case Some(shape) => ShapeEnvs(f.value, shape, full)
    case None =>
      if f.value.Tab? then
        [OverlayEnv(f.key, full)]
        + if schema.overlay.Some? then TableEnvs(f.value.entries, schema.overlay.value, full) else []
      else if schema.openEnvs then [OverlayEnv(f.key, full)]
      else []
  }

  function ShapeEnvs(v: Value, shape: Shape, path: Path): seq<OverlayEnv>
    decreases v, 3
  {
    match shape
    case AnyValue => []
    case Free => []
    case TableOf(schema) => if v.Tab? then TableEnvs(v.entries, schema, path) else []
    case ArrayOf(schema) => ArrayEnvs(v, schema, path)
    case FlagOrArray(schema) => ArrayEnvs(v, schema, path)
    case Callers => if v.Tab? then CallersEnvs(v.entries, path) else []
    case Named(schema) => if v.Tab? then NamedEnvs(v.entries, schema, path) else []
    case NamedOr(schema) => if v.Tab? then NamedEnvs(v.entries, schema, path) else []
  }

  function ArrayEnvs(v: Value, schema: TableSchema, path: Path): seq<OverlayEnv>
    decreases v, 2
  {
    if v.Rows? then RowsEnvs(v.rows, schema, path)
    else if v.Array? then ItemsEnvs(v.items, schema, path)
    else []
  }

  function RowsEnvs(rows: seq<Row>, schema: TableSchema, path: Path): seq<OverlayEnv>
    decreases rows, 2
  {
    if rows == [] then []
    else
      var last := |rows| - 1;
      assert rows[..last] < rows;
      RowsEnvs(rows[..last], schema, path) + TableEnvs(rows[last].entries, schema, path + [Index(last)])
  }

  function ItemsEnvs(items: seq<Value>, schema: TableSchema, path: Path): seq<OverlayEnv>
    decreases items, 2
  {
    if items == [] then []
    else
      var last := |items| - 1;
      assert items[..last] < items;
      ItemsEnvs(items[..last], schema, path)
      + if items[last].Tab? then TableEnvs(items[last].entries, schema, path + [Index(last)]) else []
  }

  function NamedEnvs(entries: seq<Field>, schema: TableSchema, path: Path): seq<OverlayEnv>
    decreases entries, 3
  {
    if entries == [] then []
    else
      var last := entries[|entries| - 1];
      assert entries[..|entries| - 1] < entries;
      NamedEnvs(entries[..|entries| - 1], schema, path) + OneNamedEnvs(last, schema, path + [Key(last.key)])
  }

  function OneNamedEnvs(f: Field, schema: TableSchema, full: Path): seq<OverlayEnv>
    decreases f, 3
  {
    if f.value.Tab? then TableEnvs(f.value.entries, schema, full) else []
  }

  /** A caller table names no environment, and CALLER takes no overlays. */
  function CallersEnvs(entries: seq<Field>, path: Path): seq<OverlayEnv>
    decreases entries, 3
  {
    if entries == [] then []
    else
      var last := entries[|entries| - 1];
      assert entries[..|entries| - 1] < entries;
      CallersEnvs(entries[..|entries| - 1], path) + OneCallerEnvs(last, path + [Key(last.key)])
  }

  function OneCallerEnvs(f: Field, full: Path): seq<OverlayEnv> {
    if f.value.Tab? && !HasCallerKey(f.value.entries) && f.value.entries != [] then [OverlayEnv(f.key, full)] else []
  }
}
