/** Values shared by both stages of the spreadsheet diff: cells, raw grids,
    tables with a header row, and the errors either stage can raise. */
module Sheet {

  /** One spreadsheet cell. `Empty` stands for a missing value (NaN in a
      data frame). Amounts are whole numbers, so differences are exact. */
  datatype Cell = Empty | Str(s: string) | Num(n: int) | Bool(b: bool)

  type Row = seq<Cell>

  /** A sheet as the reader hands it over: `width` columns and its rows, in
      order. Header rows of the vendor blocks are ordinary rows here. */
  datatype Grid = Grid(width: nat, rows: seq<Row>)

  /** Every row of a data frame has one cell per column. */
  predicate Rectangular(g: Grid)
  {
    forall i :: 0 <= i < |g.rows| ==> |g.rows[i]| == g.width
  }

  /** A table whose columns are named by the cells of `header`. */
  datatype Table = Table(header: Row, rows: seq<Row>)

  /** The exceptions the two stages raise, one kind per failing statement. */
  datatype Error =
    | NoColumns                 // the first column is looked up positionally in a frame without columns
    | MissingColumn(name: string) // a block has no column with this label
    | NoVendor                  // a block has no non-missing vendor value
    | HeaderMismatch            // two consecutive blocks have different column labels
    | NoBlocks                  // concatenating an empty list of blocks
    | NoFlag                    // a new-item row was requested with every flag false
    | AmbiguousMatch(vendor: Cell, po: Cell, costCode: Cell, count: nat)
    | MissingOutputColumns      // the final column selection names columns the frame lacks

  datatype Result<T> = Ok(value: T) | Err(error: Error)

  datatype Option<T> = None | Some(value: T)

  /** All the elements of `ss`, one sequence after the other. */
  function Concat<T>(ss: seq<seq<T>>): (r: seq<T>)
  {
    if ss == [] then [] else ss[0] + Concat(ss[1..])
  }

  /** The sum of the lengths of the sequences in `ss`. */
  function TotalLength<T>(ss: seq<seq<T>>): nat
  {
    if ss == [] then 0 else |ss[0]| + TotalLength(ss[1..])
  }

  lemma {:induction false} ConcatLength<T>(ss: seq<seq<T>>)
    ensures |Concat(ss)| == TotalLength(ss)
  {
    if ss != [] {
      ConcatLength(ss[1..]);
    }
  }

  /** An element of the concatenation comes from one of the parts. */
  lemma {:induction false} ConcatMember<T>(ss: seq<seq<T>>, x: T)
    requires x in Concat(ss)
    ensures exists i :: 0 <= i < |ss| && x in ss[i]
  {
    if x in ss[0] {
    } else {
      ConcatMember(ss[1..], x);
      var i :| 0 <= i < |ss[1..]| && x in ss[1..][i];
      assert x in ss[i + 1];
    }
  }

  lemma {:induction false} TotalLengthPointwise<T, U>(a: seq<seq<T>>, b: seq<seq<U>>)
    requires |a| == |b| && forall i :: 0 <= i < |a| ==> |a[i]| == |b[i]|
    ensures TotalLength(a) == TotalLength(b)
  {
    if a != [] {
      TotalLengthPointwise(a[1..], b[1..]);
    }
  }
}
