/** The last step of `compare`: the output rows become a frame and its
    columns are selected in a fixed order. */
module Output {
  import opened Sheet
  import opened Comparison

  /** The output columns, in order. */
  const OutputOrder: seq<string> := [
    "Vendor", "new_vendor", "PO Number", "new_po", "Cost Code", "new_cc",
    "Approved Purchase Orders (A)", "apo_diff",
    "Approved Change Orders (B)", "aco_diff",
    "Total Committed (C = A + B)", "tc_diff",
    "Invoiced (D)", "invoiced_diff",
    "Balance Remaining (E = C - D)", "br_diff"]

  /** The columns that only rows of an exact match carry. */
  const DiffLabels: set<string> := {"apo_diff", "aco_diff", "tc_diff", "invoiced_diff", "br_diff"}

  /** The keys of the record built for one output row. */
  function RecordKeys(d: DiffRow): set<string>
  {
    (set k | k in OutputOrder && k !in DiffLabels) + (if d.deltas.Some? then DiffLabels else {})
  }

  /** The columns of the frame built from a list of records: every key that
      some record has. */
  function FrameColumns(rows: seq<DiffRow>): set<string>
  {
    if rows == [] then {} else RecordKeys(rows[0]) + FrameColumns(rows[1..])
  }

  function DeltaCell(present: bool, n: int): Cell
  {
    if present then Num(n) else Empty
  }

  /** One output row, its cells in the order of `OutputOrder`; a difference
      a row does not carry is missing. */
  function Render(d: DiffRow): (r: Row)
    ensures |r| == |OutputOrder|
    ensures forall k :: 0 <= k < |OutputOrder| && OutputOrder[k] in DiffLabels ==> (r[k] == Empty <==> d.deltas.None?)
  {
    var a := d.item.amounts;
    var e := d.deltas.Some?;
    var z := if e then d.deltas.value else Amounts(0, 0, 0, 0, 0);
    [d.item.vendor, Bool(d.newVendor), d.item.po, Bool(d.newPo), d.item.costCode, Bool(d.newCc),
     Num(a.apo), DeltaCell(e, z.apo),
     Num(a.aco), DeltaCell(e, z.aco),
     Num(a.tc), DeltaCell(e, z.tc),
     Num(a.invoiced), DeltaCell(e, z.invoiced),
     Num(a.br), DeltaCell(e, z.br)]
  }

  /** The column selection as written: it fails unless the frame has every
      output column. */
  function SelectAsWritten(rows: seq<DiffRow>): (r: Result<seq<Row>>)
    ensures r.Err? ==> r.error == MissingOutputColumns
    ensures r.Ok? ==> r.value == Select(rows)
  {
    if forall k | k in OutputOrder :: k in FrameColumns(rows)
    then Ok(seq(|rows|, i requires 0 <= i < |rows| => Render(rows[i])))
    else Err(MissingOutputColumns)
  }

  /** The column selection as intended: every output row, with the
      differences it does not carry left missing. */
  function Select(rows: seq<DiffRow>): (out: seq<Row>)
    ensures |out| == |rows|
    ensures forall i :: 0 <= i < |rows| ==> |out[i]| == |OutputOrder|
  {
    seq(|rows|, i requires 0 <= i < |rows| => Render(rows[i]))
  }

  /** `compare` from the old and the new rows to the output frame. */
  function Report(olds: seq<LineItem>, news: seq<LineItem>): Result<seq<Row>>
  {
    match Diff(olds, news)
    case Err(e) => Err(e)
    case Ok(rows) => Ok(Select(rows))
  }

  /** `compare` as written, ending with the failing column selection. */
  function ReportAsWritten(olds: seq<LineItem>, news: seq<LineItem>): Result<seq<Row>>
  {
    match Diff(olds, news)
    case Err(e) => Err(e)
    case Ok(rows) => SelectAsWritten(rows)
  }
}
