/** Flattening one sheet that stacks several vendor sub-tables into a single
    table (`clean` in jonah/jonah.py). */
module Cleaning {
  import opened Sheet

  /** The literal in the first column that opens a vendor block; it is also
      the label of the vendor column in every block header. */
  const Marker: Cell := Str("Vendor")

  /** The label of the column whose missing values drop a row. */
  const PoLabel: string := "PO Number"

  predicate IsMarker(r: Row)
  {
    |r| > 0 && r[0] == Marker
  }

  predicate Increasing(hs: seq<nat>)
  {
    forall i, j :: 0 <= i < j < |hs| ==> hs[i] < hs[j]
  }

  /** The indices, at or after `k`, of the rows whose first cell is the marker. */
  function MarkersFrom(rows: seq<Row>, k: nat): (hs: seq<nat>)
    decreases |rows| - k
    ensures Increasing(hs)
    ensures forall i :: 0 <= i < |hs| ==> k <= hs[i] < |rows| && IsMarker(rows[hs[i]])
    ensures forall m :: k <= m < |rows| && IsMarker(rows[m]) ==> m in hs
  {
    if k >= |rows| then []
    else if IsMarker(rows[k]) then [k] + MarkersFrom(rows, k + 1)
    else MarkersFrom(rows, k + 1)
  }

  /** The marker rows of a sheet, top to bottom: exactly the rows whose first
      cell is the marker, each once, in increasing order. */
  function Markers(rows: seq<Row>): (hs: seq<nat>)
    ensures Increasing(hs)
    ensures forall i :: 0 <= i < |hs| ==> hs[i] < |rows| && IsMarker(rows[hs[i]])
    ensures forall m :: 0 <= m < |rows| && IsMarker(rows[m]) ==> m in hs
  {
    MarkersFrom(rows, 0)
  }

  predicate Bounded(hs: seq<nat>, n: nat)
  {
    forall i :: 0 <= i < |hs| ==> hs[i] <= n
  }

  /** One sub-table from each marker up to the next one; there is one block
      fewer than there are markers, so the rows from the last marker on are
      never part of a block. */
  function Blocks(rows: seq<Row>, hs: seq<nat>): (bs: seq<seq<Row>>)
    requires Increasing(hs) && Bounded(hs, |rows|)
    ensures |bs| == if |hs| < 2 then 0 else |hs| - 1
  {
    if |hs| < 2 then []
    else seq(|hs| - 1, i requires 0 <= i < |hs| - 1 => rows[hs[i]..hs[i + 1]])
  }

  /** The first row of a block names its columns and leaves the data. */
  function Promote(b: seq<Row>): Table
    requires |b| > 0
  {
    Table(b[0], b[1..])
  }

  /** The blocks of a sheet with their header rows promoted. */
  function Tables(rows: seq<Row>): (ts: seq<Table>)
    ensures |ts| == if |Markers(rows)| < 2 then 0 else |Markers(rows)| - 1
    ensures forall i :: 0 <= i < |ts| ==> IsMarker(ts[i].header)
  {
    var bs := Blocks(rows, Markers(rows));
    seq(|bs|, i requires 0 <= i < |bs| => Promote(bs[i]))
  }

  /** The position of the first header cell equal to `name`. */
  function IndexOf(header: Row, name: Cell): (c: Option<nat>)
    ensures c.Some? ==> c.value < |header| && header[c.value] == name
    ensures c.Some? ==> forall j :: 0 <= j < c.value ==> header[j] != name
    ensures c.None? <==> name !in header
  {
    if header == [] then None
    else if header[0] == name then Some(0)
    else match IndexOf(header[1..], name)
      case None => None
      case Some(c) => Some(c + 1)
  }

  function PoColumn(t: Table): Option<nat>
  {
    IndexOf(t.header, Str(PoLabel))
  }

  predicate HasValue(r: Row, c: nat)
  {
    c < |r| && r[c] != Empty
  }

  /** The rows that have a value in column `c`, in their original order. */
  function KeepWithValue(rows: seq<Row>, c: nat): (kept: seq<Row>)
    ensures |kept| <= |rows|
    ensures forall r :: r in kept <==> r in rows && HasValue(r, c)
  {
    if rows == [] then []
    else (if HasValue(rows[0], c) then [rows[0]] else []) + KeepWithValue(rows[1..], c)
  }

  /** The rows that lack a value in column `c`, in their original order. */
  function DropWithValue(rows: seq<Row>, c: nat): (dropped: seq<Row>)
    ensures forall r :: r in dropped <==> r in rows && !HasValue(r, c)
  {
    if rows == [] then []
    else (if HasValue(rows[0], c) then [] else [rows[0]]) + DropWithValue(rows[1..], c)
  }

  /** Exactly the rows without a value in column `c` are removed, and each
      other row is kept as often as it occurs. */
  lemma {:induction false} KeepWithValuePartition(rows: seq<Row>, c: nat)
    ensures multiset(KeepWithValue(rows, c)) + multiset(DropWithValue(rows, c)) == multiset(rows)
    ensures |KeepWithValue(rows, c)| + |DropWithValue(rows, c)| == |rows|
  {
    if rows != [] {
      KeepWithValuePartition(rows[1..], c);
      assert rows == [rows[0]] + rows[1..];
    }
  }

  /** The filter keeps rows in their original order: filtering a
      concatenation filters each part and concatenates the results. */
  lemma {:induction false} KeepWithValueAppend(a: seq<Row>, b: seq<Row>, c: nat)
    ensures KeepWithValue(a + b, c) == KeepWithValue(a, c) + KeepWithValue(b, c)
  {
    if a == [] {
      assert a + b == b;
    } else {
      var ab := a + b;
      assert ab[0] == a[0] && ab[1..] == a[1..] + b;
      KeepWithValueAppend(a[1..], b, c);
      var head := if HasValue(a[0], c) then [a[0]] else [];
      calc {
        KeepWithValue(ab, c);
        head + KeepWithValue(a[1..] + b, c);
        head + (KeepWithValue(a[1..], c) + KeepWithValue(b, c));
        (head + KeepWithValue(a[1..], c)) + KeepWithValue(b, c);
      }
    }
  }

  /** A single row is kept exactly when it has a value; with
      `KeepWithValueAppend` this fixes the filter to one that keeps order. */
  lemma KeepWithValueSingle(r: Row, c: nat)
    ensures KeepWithValue([r], c) == if HasValue(r, c) then [r] else []
  {
    assert [r][1..] == [];
  }

  /** When no row lacks a value, nothing is removed. */
  lemma {:induction false} KeepWithValueAll(rows: seq<Row>, c: nat)
    requires forall i :: 0 <= i < |rows| ==> HasValue(rows[i], c)
    ensures KeepWithValue(rows, c) == rows
  {
    if rows != [] {
      KeepWithValueAll(rows[1..], c);
    }
  }

  predicate HasPoColumns(ts: seq<Table>)
  {
    forall i :: 0 <= i < |ts| ==> PoColumn(ts[i]).Some?
  }

  /** Every block without the rows whose PO number is missing. */
  function DroppedAll(ts: seq<Table>): (ds: seq<Table>)
    requires HasPoColumns(ts)
    ensures |ds| == |ts|
    ensures forall i :: 0 <= i < |ds| ==> ds[i].header == ts[i].header
  {
    seq(|ts|, i requires 0 <= i < |ts| =>
      Table(ts[i].header, KeepWithValue(ts[i].rows, PoColumn(ts[i]).value)))
  }

  function VendorOf(r: Row): Cell
  {
    if |r| > 0 then r[0] else Empty
  }

  /** The first non-missing value in the vendor column, if there is one. */
  function FirstVendor(rows: seq<Row>): (v: Option<Cell>)
    ensures v.Some? ==> v.value != Empty
    ensures v.Some? ==> exists j :: 0 <= j < |rows| && VendorOf(rows[j]) == v.value &&
                                    forall k :: 0 <= k < j ==> VendorOf(rows[k]) == Empty
    ensures v.None? <==> forall j :: 0 <= j < |rows| ==> VendorOf(rows[j]) == Empty
  {
    if rows == [] then None
    else if VendorOf(rows[0]) != Empty then Some(VendorOf(rows[0]))
    else
      var v := FirstVendor(rows[1..]);
      assert v.Some? ==> exists j :: 1 <= j < |rows| && VendorOf(rows[j]) == v.value &&
                                     forall k :: 0 <= k < j ==> VendorOf(rows[k]) == Empty by {
        if v.Some? {
          var j :| 0 <= j < |rows[1..]| && VendorOf(rows[1..][j]) == v.value &&
                   forall k :: 0 <= k < j ==> VendorOf(rows[1..][k]) == Empty;
          assert VendorOf(rows[j + 1]) == v.value;
          assert forall k :: 0 <= k < j + 1 ==> VendorOf(rows[k]) == Empty by {
            forall k | 0 <= k < j + 1 ensures VendorOf(rows[k]) == Empty {
              if k > 0 { assert rows[k] == rows[1..][k - 1]; }
            }
          }
        }
      }
      v
  }

  function WithVendor(r: Row, v: Cell): Row
  {
    if |r| == 0 then r else r[0 := v]
  }

  /** A block whose vendor column holds `v` in every row; nothing else changes. */
  function Fill(t: Table, v: Cell): (f: Table)
    ensures f.header == t.header && |f.rows| == |t.rows|
    ensures forall j :: 0 <= j < |f.rows| ==> |f.rows[j]| == |t.rows[j]|
    ensures forall j :: 0 <= j < |f.rows| && |t.rows[j]| > 0 ==>
                          f.rows[j][0] == v && f.rows[j][1..] == t.rows[j][1..]
  {
    Table(t.header, seq(|t.rows|, j requires 0 <= j < |t.rows| => WithVendor(t.rows[j], v)))
  }

  predicate HasVendors(ds: seq<Table>)
  {
    forall i :: 0 <= i < |ds| ==> FirstVendor(ds[i].rows).Some?
  }

  /** Every block with its vendor column filled from its first vendor value. */
  function FilledAll(ds: seq<Table>): (fs: seq<Table>)
    requires HasVendors(ds)
  {
    seq(|ds|, i requires 0 <= i < |ds| => Fill(ds[i], FirstVendor(ds[i].rows).value))
  }

  /** Each block's column labels equal the next block's. */
  predicate SameHeaders(fs: seq<Table>)
  {
    forall i :: 0 <= i < |fs| - 1 ==> fs[i].header == fs[i + 1].header
  }

  /** Every block's column labels equal every other block's. */
  predicate AllSameHeader(fs: seq<Table>)
  {
    forall i, j :: 0 <= i < |fs| && 0 <= j < |fs| ==> fs[i].header == fs[j].header
  }

  lemma {:induction false} ChainedHeader(fs: seq<Table>, i: nat)
    requires SameHeaders(fs) && i < |fs|
    ensures fs[i].header == fs[0].header
  {
    if i > 0 {
      ChainedHeader(fs, i - 1);
    }
  }

  /** Checking each block against the next is the same as checking that
      all blocks share one header. */
  lemma SameHeadersIffAll(fs: seq<Table>)
    ensures SameHeaders(fs) <==> AllSameHeader(fs)
  {
    if SameHeaders(fs) {
      forall i, j | 0 <= i < |fs| && 0 <= j < |fs| ensures fs[i].header == fs[j].header {
        ChainedHeader(fs, i);
        ChainedHeader(fs, j);
      }
    }
  }

  lemma HeadersEqualFirst(fs: seq<Table>)
    requires forall k :: 0 <= k < |fs| ==> fs[k].header == fs[0].header
    ensures SameHeaders(fs)
  {
    forall k | 0 <= k < |fs| - 1 ensures fs[k].header == fs[k + 1].header {
      assert fs[k + 1].header == fs[0].header;
    }
  }

  function JoinRows(fs: seq<Table>): seq<Row>
  {
    Concat(seq(|fs|, i requires 0 <= i < |fs| => fs[i].rows))
  }

  /** What `clean` returns for a sheet, or the error it raises. The checks
      run in the order of the source: the PO column of every block, then the
      vendor of every block, then the headers, then the concatenation. */
  function Flatten(g: Grid): (r: Result<Table>)
    ensures r == Err(NoColumns) <==> g.width == 0
    ensures r.Err? ==> r.error in {NoColumns, MissingColumn(PoLabel), NoVendor, HeaderMismatch, NoBlocks}
    ensures r.Ok? ==> IsMarker(r.value.header)
  {
    if g.width == 0 then Err(NoColumns)
    else
      var ts := Tables(g.rows);
      if !HasPoColumns(ts) then Err(MissingColumn(PoLabel))
      else
        var ds := DroppedAll(ts);
        if !HasVendors(ds) then Err(NoVendor)
        else
          var fs := FilledAll(ds);
          if !SameHeaders(fs) then Err(HeaderMismatch)
          else if fs == [] then Err(NoBlocks)
          else Ok(Table(fs[0].header, JoinRows(fs)))
  }

  /** The loop of `clean` that overwrites each block's vendor column with
      its first vendor value and collects the filled blocks. */
  method FillBlocks(tables: seq<Table>) returns (r: Result<seq<Table>>)
    ensures r.Ok? <==> HasVendors(tables)
    ensures r.Err? ==> r.error == NoVendor
    ensures r.Ok? ==> r.value == FilledAll(tables)
  {
    var filled: seq<Table> := [];
    for i := 0 to |tables|
      invariant |filled| == i
      invariant forall k :: 0 <= k < i ==> FirstVendor(tables[k].rows).Some?
      invariant forall k :: 0 <= k < i ==> filled[k] == Fill(tables[k], FirstVendor(tables[k].rows).value)
    {
      var vendor := FirstVendor(tables[i].rows);
      if vendor.None? {
        return Err(NoVendor);
      }
      filled := filled + [Fill(tables[i], vendor.value)];
    }
    return Ok(filled);
  }

  /** The loop of `clean` that compares each block's column labels with the
      next block's. */
  method CheckHeaders(fs: seq<Table>) returns (same: bool)
    ensures same == SameHeaders(fs)
  {
    var headers := seq(|fs|, k requires 0 <= k < |fs| => fs[k].header);
    var i := 0;
    while i + 1 < |headers|
      invariant i == 0 || i < |headers|
      invariant forall k :: 0 <= k <= i && k < |headers| ==> headers[k] == headers[0]
    {
      if headers[i] != headers[i + 1] {
        assert fs[i].header != fs[i + 1].header;
        return false;
      }
      i := i + 1;
    }
    assert forall k :: 0 <= k < |fs| ==> fs[k].header == fs[0].header by {
      forall k | 0 <= k < |fs| ensures fs[k].header == fs[0].header {
        assert headers[k] == headers[0];
      }
    }
    HeadersEqualFirst(fs);
    return true;
  }

  /** `clean`: slice the sheet at its markers, promote each block's first row
      to its header and drop its PO-less rows, fill the vendor columns, check
      the headers, concatenate. */
  method Clean(g: Grid) returns (r: Result<Table>)
    ensures r == Flatten(g)
  {
    if g.width == 0 {
      return Err(NoColumns);
    }
    var blocks := Tables(g.rows);
    if exists i | 0 <= i < |blocks| :: PoColumn(blocks[i]).None? {
      return Err(MissingColumn(PoLabel));
    }
    var tables := DroppedAll(blocks);
    var filled := FillBlocks(tables);
    if filled.Err? {
      return Err(filled.error);
    }
    var same := CheckHeaders(filled.value);
    if !same {
      return Err(HeaderMismatch);
    }
    if filled.value == [] {
      return Err(NoBlocks);
    }
    r := Ok(Table(filled.value[0].header, JoinRows(filled.value)));
  }
}
