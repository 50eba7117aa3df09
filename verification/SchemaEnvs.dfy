/** The environments the schema check collects are exactly those that some overlay table or override key, however
    deep in the document, names. */
module SchemaEnvs {
  import opened Options
  import opened Toml
  import opened SchemaGrammar
  import opened SchemaDepth
  import SchemaWalker

  /** The environment that the i-th entry of a place names: an overlay table or an override key. */
  function NamedAt(n: Node, i: nat): Option<string> {
    match n
    case TableNode(entries, schema) =>
      if i < |entries| && FieldShape(schema, entries[i].key).None? && (entries[i].value.Tab? || schema.openEnvs)
      then Some(entries[i].key) else None
    case CallerNode(f) => if i == 0 && f.value.Tab? && !IsCaller(f.value.entries) then Some(f.key) else None
    case _ => None
  }

  ghost predicate Names(n: Node, env: string) {
    exists i: nat :: NamedAt(n, i) == Some(env)
  }

  ghost predicate NamesVia(n: Node, steps: seq<nat>, env: string) {
    Follow(n, steps).Some? && Names(Follow(n, steps).value, env)
  }

  /** Some place reachable from n names the environment. */
  ghost predicate NamedBelow(n: Node, env: string) {
    exists steps: seq<nat> :: NamesVia(n, steps, env)
  }

  function EnvsOf(n: Node, path: Path): seq<OverlayEnv> {
    match n
    case TableNode(entries, schema) => TableEnvs(entries, schema, path)
    case RowNode(entries, schema) => TableEnvs(entries, schema, path)
    case ValueNode(v, shape) => ShapeEnvs(v, shape, path)
    case CallerNode(f) => if f.value.Tab? && !IsCaller(f.value.entries) then [OverlayEnv(f.key, path)] else []
  }

  ghost predicate Listed(envs: seq<OverlayEnv>, env: string) {
    exists k | 0 <= k < |envs| :: envs[k].env == env
  }

  lemma ListedSum(a: seq<OverlayEnv>, b: seq<OverlayEnv>, env: string)
    ensures Listed(a + b, env) <==> Listed(a, env) || Listed(b, env)
  {
    var c := a + b;
    forall k | 0 <= k < |a| && a[k].env == env ensures Listed(c, env) { assert c[k] == a[k]; }
    forall k | 0 <= k < |b| && b[k].env == env ensures Listed(c, env) { assert c[|a| + k] == b[k]; }
  }

  lemma ListedOne(e: OverlayEnv, env: string)
    ensures Listed([e], env) <==> e.env == env
  {
    assert [e][0] == e;
  }

  // ---------- lists add up ----------

  ghost predicate FieldLists(f: Field, schema: TableSchema, path: Path, env: string) {
    Listed(FieldEnvs(f, schema, path + [Key(f.key)]), env)
  }

  lemma {:induction false} TableListed(entries: seq<Field>, schema: TableSchema, path: Path, env: string)
    ensures Listed(TableEnvs(entries, schema, path), env)
       <==> exists i | 0 <= i < |entries| :: FieldLists(entries[i], schema, path, env)
  {
    if entries != [] {
      var last := |entries| - 1;
      TableListed(entries[..last], schema, path, env);
      ListedSum(TableEnvs(entries[..last], schema, path),
                FieldEnvs(entries[last], schema, path + [Key(entries[last].key)]), env);
      assert forall i | 0 <= i < last :: entries[..last][i] == entries[i];
    }
  }

  ghost predicate RowLists(row: Row, i: nat, schema: TableSchema, path: Path, env: string) {
    Listed(TableEnvs(row.entries, schema, path + [Index(i)]), env)
  }

  lemma {:induction false} RowsListed(rows: seq<Row>, schema: TableSchema, path: Path, env: string)
    ensures Listed(RowsEnvs(rows, schema, path), env)
       <==> exists i | 0 <= i < |rows| :: RowLists(rows[i], i, schema, path, env)
  {
    if rows != [] {
      var last := |rows| - 1;
      RowsListed(rows[..last], schema, path, env);
      ListedSum(RowsEnvs(rows[..last], schema, path), TableEnvs(rows[last].entries, schema, path + [Index(last)]), env);
      assert forall i | 0 <= i < last :: rows[..last][i] == rows[i];
    }
  }

  ghost predicate ItemLists(item: Value, i: nat, schema: TableSchema, path: Path, env: string) {
    item.Tab? && Listed(TableEnvs(item.entries, schema, path + [Index(i)]), env)
  }

  lemma {:induction false} ItemsListed(items: seq<Value>, schema: TableSchema, path: Path, env: string)
    ensures Listed(ItemsEnvs(items, schema, path), env)
       <==> exists i | 0 <= i < |items| :: ItemLists(items[i], i, schema, path, env)
  {
    if items != [] {
      var last := |items| - 1;
      ItemsListed(items[..last], schema, path, env);
      ListedSum(ItemsEnvs(items[..last], schema, path),
                if items[last].Tab? then TableEnvs(items[last].entries, schema, path + [Index(last)]) else [], env);
      assert forall i | 0 <= i < last :: items[..last][i] == items[i];
    }
  }

  ghost predicate EntryLists(f: Field, schema: TableSchema, path: Path, env: string) {
    f.value.Tab? && Listed(TableEnvs(f.value.entries, schema, path + [Key(f.key)]), env)
  }

  lemma {:induction false} EntriesListed(entries: seq<Field>, schema: TableSchema, path: Path, env: string)
    ensures Listed(NamedEnvs(entries, schema, path), env)
       <==> exists i | 0 <= i < |entries| :: EntryLists(entries[i], schema, path, env)
  {
    if entries != [] {
      var last := |entries| - 1;
      var f := entries[last];
      EntriesListed(entries[..last], schema, path, env);
      ListedSum(NamedEnvs(entries[..last], schema, path), OneNamedEnvs(f, schema, path + [Key(f.key)]), env);
      assert forall i | 0 <= i < last :: entries[..last][i] == entries[i];
    }
  }

  predicate CallerLists(f: Field, env: string) {
    f.value.Tab? && !IsCaller(f.value.entries) && f.key == env
  }

  lemma {:induction false} CallersListed(entries: seq<Field>, path: Path, env: string)
    ensures Listed(CallersEnvs(entries, path), env) <==> exists i | 0 <= i < |entries| :: CallerLists(entries[i], env)
  {
    if entries != [] {
      var last := |entries| - 1;
      var f := entries[last];
      CallersListed(entries[..last], path, env);
      var own := OverlayEnv(f.key, path + [Key(f.key)]);
      ListedOne(own, env);
      ListedSum(CallersEnvs(entries[..last], path), OneCallerEnvs(f, path + [Key(f.key)]), env);
      assert forall i | 0 <= i < last :: entries[..last][i] == entries[i];
    }
  }

  // ---------- a place lists what it names and what the places below it list ----------

  function ChildPath(n: Node, i: nat, path: Path): Path {
    match n
    case TableNode(entries, _) => if i < |entries| then path + [Key(entries[i].key)] else path
    case ValueNode(v, shape) =>
      if shape.TableOf? then path
      else if v.Tab? && i < |v.entries| then path + [Key(v.entries[i].key)]
      else path + [Index(i)]
    case _ => path
  }

  /** The i-th place below n lists the environment. */
  ghost predicate ListsBelow(n: Node, i: nat, path: Path, env: string) {
    Child(n, i).Some? && Listed(EnvsOf(Child(n, i).value, ChildPath(n, i, path)), env)
  }

  lemma EntryFieldLists(entries: seq<Field>, schema: TableSchema, i: nat, path: Path, env: string)
    requires i < |entries|
    ensures var n := TableNode(entries, schema);
            FieldLists(entries[i], schema, path, env) && FieldConforms(entries[i], schema)
            ==> NamedAt(n, i) == Some(env) || ListsBelow(n, i, path, env)
    ensures var n := TableNode(entries, schema);
            (NamedAt(n, i) == Some(env) || ListsBelow(n, i, path, env)) && FieldConforms(entries[i], schema)
            ==> FieldLists(entries[i], schema, path, env)
  {
    var f := entries[i];
    var full := path + [Key(f.key)];
    ListedOne(OverlayEnv(f.key, full), env);
    if f.value.Tab? && schema.overlay.Some? {
      ListedSum([OverlayEnv(f.key, full)], TableEnvs(f.value.entries, schema.overlay.value, full), env);
    }
  }

  lemma TableNodeLists(entries: seq<Field>, schema: TableSchema, path: Path, env: string)
    requires TableConforms(entries, schema)
    ensures var n := TableNode(entries, schema);
            Listed(EnvsOf(n, path), env) <==> Names(n, env) || exists i: nat :: ListsBelow(n, i, path, env)
  {
    var n := TableNode(entries, schema);
    TableListed(entries, schema, path, env);
    forall i | 0 <= i < |entries|
      ensures FieldLists(entries[i], schema, path, env) <==> NamedAt(n, i) == Some(env) || ListsBelow(n, i, path, env)
    {
      EntryFieldLists(entries, schema, i, path, env);
    }
  }

  lemma ArrayNodeLists(v: Value, shape: Shape, schema: TableSchema, path: Path, env: string)
    requires shape in [ArrayOf(schema), FlagOrArray(schema)]
    ensures Listed(ArrayEnvs(v, schema, path), env) <==> exists i: nat :: ListsBelow(ValueNode(v, shape), i, path, env)
  {
    var n := ValueNode(v, shape);
    if v.Rows? {
      RowsListed(v.rows, schema, path, env);
      forall i | 0 <= i < |v.rows| ensures RowLists(v.rows[i], i, schema, path, env) <==> ListsBelow(n, i, path, env) {}
    } else if v.Array? {
      ItemsListed(v.items, schema, path, env);
      forall i | 0 <= i < |v.items|
        ensures ItemLists(v.items[i], i, schema, path, env) <==> ListsBelow(n, i, path, env) {}
    }
  }

  lemma NamedNodeLists(v: Value, shape: Shape, schema: TableSchema, path: Path, env: string)
    requires shape in [Named(schema), NamedOr(schema)] && v.Tab?
    ensures Listed(NamedEnvs(v.entries, schema, path), env)
       <==> exists i: nat :: ListsBelow(ValueNode(v, shape), i, path, env)
  {
    var n := ValueNode(v, shape);
    EntriesListed(v.entries, schema, path, env);
    forall i | 0 <= i < |v.entries|
      ensures EntryLists(v.entries[i], schema, path, env) <==> ListsBelow(n, i, path, env) {}
  }

  lemma CallersNodeLists(v: Value, path: Path, env: string)
    requires v.Tab?
    ensures Listed(CallersEnvs(v.entries, path), env)
       <==> exists i: nat :: ListsBelow(ValueNode(v, Callers), i, path, env)
  {
    var n := ValueNode(v, Callers);
    CallersListed(v.entries, path, env);
    forall i | 0 <= i < |v.entries| ensures CallerLists(v.entries[i], env) <==> ListsBelow(n, i, path, env) {
      ListedOne(OverlayEnv(v.entries[i].key, path + [Key(v.entries[i].key)]), env);
    }
  }

  lemma ValueNodeLists(v: Value, shape: Shape, path: Path, env: string)
    requires Conforms(v, shape)
    ensures var n := ValueNode(v, shape);
            Listed(EnvsOf(n, path), env) <==> Names(n, env) || exists i: nat :: ListsBelow(n, i, path, env)
  {
    var n := ValueNode(v, shape);
    match shape
    case TableOf(schema) =>
      assert Listed(EnvsOf(n, path), env) <==> ListsBelow(n, 0, path, env);
    case ArrayOf(schema) => ArrayNodeLists(v, shape, schema, path, env);
    case FlagOrArray(schema) => ArrayNodeLists(v, shape, schema, path, env);
    case Callers => CallersNodeLists(v, path, env);
    case Named(schema) => NamedNodeLists(v, shape, schema, path, env);
    case NamedOr(schema) => NamedNodeLists(v, shape, schema, path, env);
    case AnyValue =>
    case Free =>
  }

  lemma CallerNodeLists(f: Field, path: Path, env: string)
    requires CallerConforms(f)
    ensures var n := CallerNode(f);
            Listed(EnvsOf(n, path), env) <==> Names(n, env) || exists i: nat :: ListsBelow(n, i, path, env)
  {
    var n := CallerNode(f);
    ListedOne(OverlayEnv(f.key, path), env);
    assert Names(n, env) <==> NamedAt(n, 0) == Some(env);
    forall i: nat | Child(n, i).Some? ensures !ListsBelow(n, i, path, env) {
      var entries := f.value.entries;
      if IsCaller(entries) {
        SchemaWalker.CallerTableNamesNothing(entries, path);
      } else {
        assert InnerCallerConforms(entries[i]);
        SchemaWalker.CallerTableNamesNothing(entries[i].value.entries, path);
      }
    }
  }

  lemma NodeLists(n: Node, path: Path, env: string)
    requires NodeConforms(n)
    ensures Listed(EnvsOf(n, path), env) <==> Names(n, env) || exists i: nat :: ListsBelow(n, i, path, env)
  {
    match n
    case TableNode(entries, schema) => TableNodeLists(entries, schema, path, env);
    case RowNode(entries, schema) =>
      assert Listed(EnvsOf(n, path), env) <==> ListsBelow(n, 0, path, env);
    case ValueNode(v, shape) => ValueNodeLists(v, shape, path, env);
    case CallerNode(f) => CallerNodeLists(f, path, env);
  }

  // ---------- every place below is lighter ----------

  function Weight(v: Value): nat
    decreases v
  {
    match v
    case Tab(entries) => 2 + FieldsWeight(entries)
    case Rows(rows) => 1 + RowsWeight(rows)
    case Array(items) => 1 + ItemsWeight(items)
    case _ => 1
  }

  function FieldsWeight(entries: seq<Field>): nat
    decreases entries
  {
    if entries == [] then 0
    else
      assert entries[..|entries| - 1] < entries;
      FieldsWeight(entries[..|entries| - 1]) + 1 + Weight(entries[|entries| - 1].value)
  }

  function RowsWeight(rows: seq<Row>): nat
    decreases rows
  {
    if rows == [] then 0
    else
      assert rows[..|rows| - 1] < rows;
      RowsWeight(rows[..|rows| - 1]) + 2 + FieldsWeight(rows[|rows| - 1].entries)
  }

  function ItemsWeight(items: seq<Value>): nat
    decreases items
  {
    if items == [] then 0
    else
      assert items[..|items| - 1] < items;
      ItemsWeight(items[..|items| - 1]) + 1 + Weight(items[|items| - 1])
  }

  lemma {:induction false} FieldLighter(entries: seq<Field>, i: nat)
    requires i < |entries|
    ensures Weight(entries[i].value) < FieldsWeight(entries)
  {
    if i < |entries| - 1 { FieldLighter(entries[..|entries| - 1], i); }
  }

  lemma {:induction false} RowLighter(rows: seq<Row>, i: nat)
    requires i < |rows|
    ensures FieldsWeight(rows[i].entries) + 2 <= RowsWeight(rows)
  {
    if i < |rows| - 1 { RowLighter(rows[..|rows| - 1], i); }
  }

  lemma {:induction false} ItemLighter(items: seq<Value>, i: nat)
    requires i < |items|
    ensures Weight(items[i]) < ItemsWeight(items)
  {
    if i < |items| - 1 { ItemLighter(items[..|items| - 1], i); }
  }

  function NodeWeight(n: Node): nat {
    match n
    case TableNode(entries, _) => FieldsWeight(entries)
    case RowNode(entries, _) => FieldsWeight(entries) + 1
    case ValueNode(v, _) => Weight(v)
    case CallerNode(f) => Weight(f.value)
  }

  lemma ChildLighter(n: Node, i: nat)
    requires Child(n, i).Some?
    ensures NodeWeight(Child(n, i).value) < NodeWeight(n)
  {
    match n
    case TableNode(entries, _) => FieldLighter(entries, i);
    case RowNode(_, _) =>
    case ValueNode(v, shape) =>
      if v.Tab? && i < |v.entries| { FieldLighter(v.entries, i); }
      if v.Rows? { RowLighter(v.rows, i); }
      if v.Array? { ItemLighter(v.items, i); }
    case CallerNode(f) =>
      if !IsCaller(f.value.entries) { FieldLighter(f.value.entries, i); }
  }

  // ---------- collected exactly ----------

  lemma {:induction false} NamedIsListed(n: Node, steps: seq<nat>, path: Path, env: string)
    requires NodeConforms(n) && NamesVia(n, steps, env)
    ensures Listed(EnvsOf(n, path), env)
    decreases |steps|
  {
    NodeLists(n, path, env);
    if steps != [] {
      ConformingBelow(n, steps[0]);
      NamedIsListed(Child(n, steps[0]).value, steps[1..], ChildPath(n, steps[0], path), env);
      assert ListsBelow(n, steps[0], path, env);
    }
  }

  lemma {:induction false} ListedIsNamed(n: Node, path: Path, env: string)
    requires NodeConforms(n) && Listed(EnvsOf(n, path), env)
    ensures NamedBelow(n, env)
    decreases NodeWeight(n)
  {
    NodeLists(n, path, env);
    if Names(n, env) {
      assert NamesVia(n, [], env);
    } else {
      var i: nat :| ListsBelow(n, i, path, env);
      ConformingBelow(n, i);
      ChildLighter(n, i);
      ListedIsNamed(Child(n, i).value, ChildPath(n, i, path), env);
      var steps: seq<nat> :| NamesVia(Child(n, i).value, steps, env);
      assert ([i] + steps)[1..] == steps;
      assert NamesVia(n, [i] + steps, env);
    }
  }

  /** For a document that conforms, an environment is collected exactly when some place at some depth names it. */
  lemma CollectsExactlyTheNamedEnvs(root: seq<Field>, schema: TableSchema, env: string)
    requires TableConforms(root, schema)
    ensures Listed(TableEnvs(root, schema, []), env) <==> NamedBelow(TableNode(root, schema), env)
  {
    var n := TableNode(root, schema);
    if Listed(EnvsOf(n, []), env) { ListedIsNamed(n, [], env); }
    if NamedBelow(n, env) {
      var steps: seq<nat> :| NamesVia(n, steps, env);
      NamedIsListed(n, steps, [], env);
    }
  }
}
