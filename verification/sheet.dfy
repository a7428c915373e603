/** The "Collection" worksheet as both scripts see it: records read below the
    header row, cell updates addressed by row and column, and the single
    batched write that applies them. */
module Sheet {
  import opened Py

  // Column numbers of the Collection sheet (1-based): Name, Card Number,
  // Quantity, Unique Identifier, Type, Rarity, Shiny, Set, Status,
  // Price (USD), SGD.
  const IdentifierColumn := 4
  const TypeColumn := 5
  const StatusColumn := 9
  const PriceColumn := 10

  /** One record of the Collection sheet, keyed by header; only the columns
      the scripts read are kept. */
  datatype Record = Record(
    name: Value,
    cardNumber: Value,
    uniqueIdentifier: Value,
    rarity: Value,
    shiny: Value,
    setName: Value,
    status: Value)

  /** The sheet row holding the record at `index` of the record list: sheet
      rows are 1-based and row 1 is the header. */
  function RowNumber(index: nat): (row: int)
    ensures row >= 2
  {
    index + 2
  }

  /** Records keep their order on the sheet: a later record sits on a
      later row, so no two records share a row. */
  lemma RowNumberOrder(i: nat, j: nat)
    ensures i < j <==> RowNumber(i) < RowNumber(j)
    ensures i == j <==> RowNumber(i) == RowNumber(j)
  {
  }

  /** A pending cell update `(row, col, value)`. */
  datatype Update = Update(row: int, col: int, value: Value)

  /** One entry of a batch_update request: an A1 range and its values. */
  datatype Entry = Entry(range: string, values: seq<seq<Value>>)

  /** The batch_update payload built from the accumulated updates; `a1` is
      the library's row/column to A1 conversion, left uninterpreted. Each
      update becomes exactly one entry, in the same order. */
  function BatchUpdates(updates: seq<Update>, a1: (int, int) -> string): (r: seq<Entry>)
    ensures |r| == |updates|
    ensures forall k :: 0 <= k < |updates| ==>
              r[k] == Entry(a1(updates[k].row, updates[k].col), [[updates[k].value]])
  {
    if updates == [] then []
    else [Entry(a1(updates[0].row, updates[0].col), [[updates[0].value]])] + BatchUpdates(updates[1..], a1)
  }
}
