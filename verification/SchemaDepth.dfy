/** Conformance read off the whole document at once: a document conforms exactly when everything that can be
    reached in it, however deep, is in order where it stands. */
module SchemaDepth {
  import opened Options
  import opened Toml
  import opened SchemaGrammar

  /** A place in a document together with the part of the schema that governs it. */
  datatype Node =
    | TableNode(entries: seq<Field>, schema: TableSchema)
    | RowNode(entries: seq<Field>, schema: TableSchema)
    | ValueNode(value: Value, shape: Shape)
    | CallerNode(field: Field)

  predicate IsCaller(entries: seq<Field>) {
    HasCallerKey(entries) || entries == []
  }

  /** The i-th place one level further down; keys that are not looked into lead nowhere. */
  function Child(n: Node, i: nat): Option<Node> {
    match n
    case TableNode(entries, schema) => if i < |entries| then Below(entries[i], schema) else None
    case RowNode(entries, schema) => if i == 0 then Some(TableNode(entries, schema)) else None
    case ValueNode(v, shape) => Inside(v, shape, i)
    case CallerNode(f) =>
      if !f.value.Tab? then None
      else if IsCaller(f.value.entries) then
        if i == 0 then Some(TableNode(f.value.entries, CALLER)) else None
      else if i < |f.value.entries| && f.value.entries[i].value.Tab? then
        Some(TableNode(f.value.entries[i].value.entries, CALLER))
      else None
  }

  function Below(f: Field, schema: TableSchema): Option<Node> {
    match FieldShape(schema, f.key)
    case Some(shape) => Some(ValueNode(f.value, shape))
    case None =>
      if f.value.Tab? && schema.overlay.Some? then Some(TableNode(f.value.entries, schema.overlay.value)) else None
  }

  function Inside(v: Value, shape: Shape, i: nat): Option<Node> {
    match shape
    case AnyValue => None
    case Free => None
    case TableOf(schema) => if v.Tab? && i == 0 then Some(TableNode(v.entries, schema)) else None
    case ArrayOf(schema) => Element(v, schema, i)
    case FlagOrArray(schema) => Element(v, schema, i)
    case Callers => if v.Tab? && i < |v.entries| then Some(CallerNode(v.entries[i])) else None
    case Named(schema) => Entry(v, schema, i)
    case NamedOr(schema) => Entry(v, schema, i)
  }

  function Element(v: Value, schema: TableSchema, i: nat): Option<Node> {
    if v.Rows? && i < |v.rows| then Some(RowNode(v.rows[i].entries, schema))
    else if v.Array? && i < |v.items| && v.items[i].Tab? then Some(RowNode(v.items[i].entries, schema))
    else None
  }

  function Entry(v: Value, schema: TableSchema, i: nat): Option<Node> {
    if v.Tab? && i < |v.entries| && v.entries[i].value.Tab? then Some(TableNode(v.entries[i].value.entries, schema))
    else None
  }

  function Follow(n: Node, steps: seq<nat>): Option<Node>
    decreases |steps|
  {
    if steps == [] then Some(n)
    else match Child(n, steps[0]) case None => None case Some(c) => Follow(c, steps[1..])
  }

  /** The key belongs in its table. */
  predicate KeyInOrder(f: Field, schema: TableSchema) {
    || FieldShape(schema, f.key).Some?
    || (if f.value.Tab? then schema.overlay.Some? && IsEnvName(f.key)
        else schema.openValues && (schema.openEnvs ==> IsEnvName(f.key)))
  }

  predicate ArrayInOrder(v: Value) {
    v.Rows? || (v.Array? && forall i | 0 <= i < |v.items| :: v.items[i].Tab?)
  }

  /** In order as far as this place alone goes: known keys, required keys, the right kind of value. */
  predicate InOrder(n: Node) {
    match n
    case TableNode(entries, schema) => forall i | 0 <= i < |entries| :: KeyInOrder(entries[i], schema)
    case RowNode(entries, schema) => HasRequired(schema, entries)
    case ValueNode(v, shape) => KindInOrder(v, shape)
    case CallerNode(f) => f.value.Tab? && !IsCaller(f.value.entries) ==> IsEnvName(f.key)
  }

  predicate KindInOrder(v: Value, shape: Shape) {
    match shape
    case AnyValue => true
    case Free => true
    case TableOf(_) => v.Tab?
    case ArrayOf(_) => ArrayInOrder(v)
    case FlagOrArray(_) => v.Bool? || ArrayInOrder(v)
    case Callers => v.Tab?
    case Named(_) => v.Tab? && forall i | 0 <= i < |v.entries| :: v.entries[i].value.Tab?
    case NamedOr(_) => v.Tab?
  }

  predicate NodeConforms(n: Node) {
    match n
    case TableNode(entries, schema) => TableConforms(entries, schema)
    case RowNode(entries, schema) => RowConforms(entries, schema)
    case ValueNode(v, shape) => Conforms(v, shape)
    case CallerNode(f) => CallerConforms(f)
  }

  /** Some place reachable from n is out of order. */
  ghost predicate Faulty(n: Node) {
    exists steps: seq<nat> :: OutOfOrder(n, steps)
  }

  ghost predicate OutOfOrder(n: Node, steps: seq<nat>) {
    Follow(n, steps).Some? && !InOrder(Follow(n, steps).value)
  }

  // ---------- a conforming place is in order, and so is everything below it ----------

  lemma ElementsConform(v: Value, schema: TableSchema)
    requires RowsConform(v, schema)
    ensures ArrayInOrder(v)
    ensures forall i: nat | Element(v, schema, i).Some? :: NodeConforms(Element(v, schema, i).value)
  {
    if v.Array? {
      forall i | 0 <= i < |v.items| ensures v.items[i].Tab? && RowConforms(v.items[i].entries, schema) {
        assert ItemConforms(v.items[i], schema);
      }
    }
  }

  lemma ConformingInOrder(n: Node)
    requires NodeConforms(n)
    ensures InOrder(n)
  {
    if n.TableNode? {
      forall i | 0 <= i < |n.entries| ensures KeyInOrder(n.entries[i], n.schema) {
        assert FieldConforms(n.entries[i], n.schema);
      }
    } else if n.ValueNode? && (n.shape.ArrayOf? || (n.shape.FlagOrArray? && !n.value.Bool?)) {
      ElementsConform(n.value, n.shape.schema);
    }
  }

  lemma ConformingBelow(n: Node, i: nat)
    requires NodeConforms(n) && Child(n, i).Some?
    ensures NodeConforms(Child(n, i).value)
  {
    match n
    case TableNode(entries, schema) => assert FieldConforms(entries[i], schema);
    case RowNode(entries, schema) =>
    case ValueNode(v, shape) =>
      if shape.ArrayOf? || shape.FlagOrArray? { ElementsConform(v, shape.schema); }
    case CallerNode(f) =>
      if !IsCaller(f.value.entries) { assert InnerCallerConforms(f.value.entries[i]); }
  }

  lemma {:induction false} ConformingNotFaulty(n: Node, steps: seq<nat>)
    requires NodeConforms(n)
    ensures !OutOfOrder(n, steps)
    decreases steps
  {
    if steps == [] {
      ConformingInOrder(n);
    } else if Child(n, steps[0]).Some? {
      ConformingBelow(n, steps[0]);
      ConformingNotFaulty(Child(n, steps[0]).value, steps[1..]);
    }
  }

  // ---------- a place that does not conform leads to one that is out of order ----------

  lemma FaultBelow(n: Node, i: nat)
    requires Child(n, i).Some? && Faulty(Child(n, i).value)
    ensures Faulty(n)
  {
    var steps: seq<nat> :| OutOfOrder(Child(n, i).value, steps);
    assert ([i] + steps)[1..] == steps;
    assert OutOfOrder(n, [i] + steps);
  }

  lemma FaultHere(n: Node)
    requires !InOrder(n)
    ensures Faulty(n)
  {
    assert OutOfOrder(n, []);
  }

  lemma {:induction false} TableFault(entries: seq<Field>, schema: TableSchema)
    requires !TableConforms(entries, schema)
    ensures Faulty(TableNode(entries, schema))
    decreases entries, 1
  {
    var n := TableNode(entries, schema);
    if !InOrder(n) {
      FaultHere(n);
    } else {
      var i :| 0 <= i < |entries| && !FieldConforms(entries[i], schema);
      assert KeyInOrder(entries[i], schema);
      match FieldShape(schema, entries[i].key) {
        case Some(shape) => ShapeFault(entries[i].value, shape);
        case None => TableFault(entries[i].value.entries, schema.overlay.value);
      }
      FaultBelow(n, i);
    }
  }

  lemma {:induction false} RowFault(entries: seq<Field>, schema: TableSchema)
    requires !RowConforms(entries, schema)
    ensures Faulty(RowNode(entries, schema))
    decreases entries, 2
  {
    if TableConforms(entries, schema) {
      FaultHere(RowNode(entries, schema));
    } else {
      TableFault(entries, schema);
      FaultBelow(RowNode(entries, schema), 0);
    }
  }

  lemma {:induction false} ShapeFault(v: Value, shape: Shape)
    requires !Conforms(v, shape)
    ensures Faulty(ValueNode(v, shape))
    decreases v, 3
  {
    var n := ValueNode(v, shape);
    if !InOrder(n) {
      FaultHere(n);
    } else {
      match shape
      case TableOf(schema) =>
        TableFault(v.entries, schema);
        FaultBelow(n, 0);
      case ArrayOf(schema) => ArrayFault(v, shape, schema);
      case FlagOrArray(schema) => ArrayFault(v, shape, schema);
      case Callers =>
        var i :| 0 <= i < |v.entries| && !CallerConforms(v.entries[i]);
        CallerFault(v.entries[i]);
        FaultBelow(n, i);
      case Named(schema) => EntryFault(v, shape, schema);
      case NamedOr(schema) => EntryFault(v, shape, schema);
    }
  }

  lemma {:induction false} ArrayFault(v: Value, shape: Shape, schema: TableSchema)
    requires shape in [ArrayOf(schema), FlagOrArray(schema)] && ArrayInOrder(v) && !RowsConform(v, schema)
    ensures Faulty(ValueNode(v, shape))
    decreases v, 2
  {
    if v.Rows? {
      var i :| 0 <= i < |v.rows| && !RowConforms(v.rows[i].entries, schema);
      RowFault(v.rows[i].entries, schema);
      FaultBelow(ValueNode(v, shape), i);
    } else {
      var i :| 0 <= i < |v.items| && !ItemConforms(v.items[i], schema);
      RowFault(v.items[i].entries, schema);
      FaultBelow(ValueNode(v, shape), i);
    }
  }

  lemma {:induction false} EntryFault(v: Value, shape: Shape, schema: TableSchema)
    requires shape in [Named(schema), NamedOr(schema)] && v.Tab?
    requires exists i | 0 <= i < |v.entries| ::
               v.entries[i].value.Tab? && !TableConforms(v.entries[i].value.entries, schema)
    ensures Faulty(ValueNode(v, shape))
    decreases v, 2
  {
    var i :| 0 <= i < |v.entries| && v.entries[i].value.Tab? && !TableConforms(v.entries[i].value.entries, schema);
    TableFault(v.entries[i].value.entries, schema);
    FaultBelow(ValueNode(v, shape), i);
  }

  lemma {:induction false} CallerFault(f: Field)
    requires !CallerConforms(f)
    ensures Faulty(CallerNode(f))
    decreases f, 2
  {
    var n := CallerNode(f);
    if !InOrder(n) {
      FaultHere(n);
    } else if IsCaller(f.value.entries) {
      TableFault(f.value.entries, CALLER);
      FaultBelow(n, 0);
    } else {
      var i :| 0 <= i < |f.value.entries| && !InnerCallerConforms(f.value.entries[i]);
      TableFault(f.value.entries[i].value.entries, CALLER);
      FaultBelow(n, i);
    }
  }

  /** A document conforms exactly when no place in it, at any depth, is out of order. */
  lemma ConformsAtEveryDepth(root: seq<Field>, schema: TableSchema)
    ensures TableConforms(root, schema)
       <==> forall steps: seq<nat> :: !OutOfOrder(TableNode(root, schema), steps)
  {
    var n := TableNode(root, schema);
    if TableConforms(root, schema) {
      forall steps: seq<nat> ensures !OutOfOrder(n, steps) { ConformingNotFaulty(n, steps); }
    } else {
      TableFault(root, schema);
    }
  }
}
