/** Rows of the neighbouring tables and the entities read from them. */
module Tables {

  /** A row gives every column of its table a value; payload values are opaque codes. */
  type Row = map<string, int>

  /** What a query returns for a row: the selected columns. */
  type Entity = map<string, int>

  /** A field of an entity: Go's zero value when the column was not selected. */
  function Field(e: Entity, column: string): int {
    if column in e then e[column] else 0
  }
}
