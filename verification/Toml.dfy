/** Parsed TOML as the schema walker and the section resolvers see it. */
module Toml {

  datatype Value =
    | Str(text: string)
    | Int(number: int)
    | Bool(flag: bool)
    | Scalar(kind: string)
    | Array(items: seq<Value>)
    | Rows(rows: seq<Row>)
    | Tab(entries: seq<Field>)

  /** One table of an array of tables. */
  datatype Row = Row(entries: seq<Field>)

  datatype Field = Field(key: string, value: Value)

  /** Every table has each key once. */
  ghost predicate UniqueKeys(entries: seq<Field>) {
    forall i, j | 0 <= i < j < |entries| :: entries[i].key != entries[j].key
  }
}
