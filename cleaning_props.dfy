/** What `clean` promises, proved about the specification `Cleaning.Flatten`. */
module CleaningProps {
  import opened Sheet
  import opened Cleaning

  /** Concatenated, the blocks are exactly the rows from the first marker
      up to, and not including, the last one. */
  lemma {:induction false} BlocksCover(rows: seq<Row>, hs: seq<nat>)
    requires Increasing(hs) && Bounded(hs, |rows|) && |hs| > 0
    ensures Concat(Blocks(rows, hs)) == rows[hs[0]..hs[|hs| - 1]]
  {
    if |hs| >= 2 {
      var bs := Blocks(rows, hs);
      BlocksCover(rows, hs[1..]);
      BlocksTail(rows, hs);
      assert Concat(bs) == rows[hs[0]..hs[1]] + Concat(Blocks(rows, hs[1..]));
      assert rows[hs[0]..hs[1]] + rows[hs[1]..hs[|hs| - 1]] == rows[hs[0]..hs[|hs| - 1]];
    }
  }

  /** Dropping the first marker drops the first block. */
  lemma BlocksTail(rows: seq<Row>, hs: seq<nat>)
    requires Increasing(hs) && Bounded(hs, |rows|) && |hs| >= 2
    ensures Blocks(rows, hs)[0] == rows[hs[0]..hs[1]]
    ensures Blocks(rows, hs)[1..] == Blocks(rows, hs[1..])
  {
    var bs := Blocks(rows, hs);
    var rest := Blocks(rows, hs[1..]);
    forall i | 0 <= i < |rest| ensures bs[1..][i] == rest[i] {
      assert bs[i + 1] == rows[hs[i + 1]..hs[i + 2]];
    }
  }

  /** Block `i` of a sheet runs from marker `i` to marker `i + 1`: it starts
      with a marker row and holds no other. */
  lemma BlockShape(rows: seq<Row>, i: nat)
    requires i < |Blocks(rows, Markers(rows))|
    ensures var hs := Markers(rows); var b := Blocks(rows, hs)[i];
      i + 1 < |hs| && b == rows[hs[i]..hs[i + 1]] && |b| > 0 && IsMarker(b[0]) &&
      forall j :: 0 < j < |b| ==> !IsMarker(b[j])
  {
    var hs := Markers(rows);
    var b := Blocks(rows, hs)[i];
    forall j | 0 < j < |b| ensures !IsMarker(b[j]) {
      assert b[j] == rows[hs[i] + j];
    }
  }

  /** Each promoted block takes its header from its marker row and its data
      from the rows up to the next marker. */
  lemma TableOfBlock(rows: seq<Row>, i: nat)
    requires i < |Tables(rows)|
    ensures var hs := Markers(rows);
      i + 1 < |hs| && Tables(rows)[i].header == rows[hs[i]] &&
      Tables(rows)[i].rows == rows[hs[i] + 1..hs[i + 1]]
  {
    BlockShape(rows, i);
  }

  /** There are always one fewer blocks than marker rows (none for fewer
      than two markers). */
  lemma TablesCount(rows: seq<Row>)
    ensures |Tables(rows)| == if |Markers(rows)| < 2 then 0 else |Markers(rows)| - 1
  {
  }

  /** With fewer than two marker rows there is no block, and concatenating
      no blocks fails. */
  lemma FlattenTooFewMarkers(g: Grid)
    requires g.width > 0 && |Markers(g.rows)| < 2
    ensures Flatten(g) == Err(NoBlocks)
  {
    TablesCount(g.rows);
  }

  /** `clean` succeeds exactly when the sheet has columns and at least two
      marker rows, every block has a PO column and a vendor value, and all
      blocks share one header. */
  lemma FlattenSucceeds(g: Grid)
    ensures Flatten(g).Ok? <==>
      g.width > 0 && |Markers(g.rows)| >= 2 && HasPoColumns(Tables(g.rows)) &&
      HasVendors(DroppedAll(Tables(g.rows))) &&
      AllSameHeader(FilledAll(DroppedAll(Tables(g.rows))))
  {
    TablesCount(g.rows);
    if g.width > 0 && HasPoColumns(Tables(g.rows)) && HasVendors(DroppedAll(Tables(g.rows))) {
      SameHeadersIffAll(FilledAll(DroppedAll(Tables(g.rows))));
    }
  }

  /** On success every marker row but the last is the header of the result:
      all blocks have identical column labels. */
  lemma FlattenHeader(g: Grid)
    requires Flatten(g).Ok?
    ensures var hs := Markers(g.rows);
      |hs| >= 2 && forall i :: 0 <= i < |hs| - 1 ==> g.rows[hs[i]] == Flatten(g).value.header
  {
    var hs := Markers(g.rows);
    var ts := Tables(g.rows);
    var fs := FilledAll(DroppedAll(ts));
    TablesCount(g.rows);
    SameHeadersIffAll(fs);
    forall i | 0 <= i < |hs| - 1 ensures g.rows[hs[i]] == Flatten(g).value.header {
      TableOfBlock(g.rows, i);
      assert fs[i].header == fs[0].header;
    }
  }

  /** Two blocks with different column labels make `clean` fail, once every
      block has passed the PO column and vendor checks. */
  lemma FlattenRejectsMismatch(g: Grid, i: nat, j: nat)
    requires g.width > 0 && HasPoColumns(Tables(g.rows)) && HasVendors(DroppedAll(Tables(g.rows)))
    requires i < |Tables(g.rows)| && j < |Tables(g.rows)|
    requires g.rows[Markers(g.rows)[i]] != g.rows[Markers(g.rows)[j]]
    ensures Flatten(g) == Err(HeaderMismatch)
  {
    var fs := FilledAll(DroppedAll(Tables(g.rows)));
    TableOfBlock(g.rows, i);
    TableOfBlock(g.rows, j);
    SameHeadersIffAll(fs);
    assert fs[i].header != fs[j].header;
  }

  lemma {:induction false} NoMarkersFrom(rows: seq<Row>, k: nat)
    requires forall m :: k <= m < |rows| ==> !IsMarker(rows[m])
    ensures MarkersFrom(rows, k) == []
    decreases |rows| - k
  {
    if k < |rows| {
      NoMarkersFrom(rows, k + 1);
    }
  }

  /** Marker-free rows appended to a sheet add no marker. */
  lemma {:induction false} MarkersFromAppend(rows: seq<Row>, tail: seq<Row>, k: nat)
    requires forall j :: 0 <= j < |tail| ==> !IsMarker(tail[j])
    requires k <= |rows|
    ensures MarkersFrom(rows + tail, k) == MarkersFrom(rows, k)
    decreases |rows| - k
  {
    var all := rows + tail;
    if k == |rows| {
      assert forall m :: k <= m < |all| ==> !IsMarker(all[m]) by {
        forall m | k <= m < |all| ensures !IsMarker(all[m]) {
          assert all[m] == tail[m - |rows|];
        }
      }
      NoMarkersFrom(all, k);
    } else {
      assert all[k] == rows[k];
      MarkersFromAppend(rows, tail, k + 1);
    }
  }

  lemma BlocksOfPrefix(rows: seq<Row>, tail: seq<Row>, hs: seq<nat>)
    requires Increasing(hs) && Bounded(hs, |rows|)
    ensures Bounded(hs, |rows + tail|) && Blocks(rows + tail, hs) == Blocks(rows, hs)
  {
    var bs := Blocks(rows, hs);
    var bs' := Blocks(rows + tail, hs);
    forall i | 0 <= i < |bs| ensures bs'[i] == bs[i] {
      assert (rows + tail)[hs[i]..hs[i + 1]] == rows[hs[i]..hs[i + 1]];
    }
  }

  lemma TablesIgnoreTail(rows: seq<Row>, tail: seq<Row>)
    requires forall j :: 0 <= j < |tail| ==> !IsMarker(tail[j])
    ensures Tables(rows + tail) == Tables(rows)
  {
    MarkersFromAppend(rows, tail, 0);
    BlocksOfPrefix(rows, tail, Markers(rows));
  }

  /** Rows appended after the last marker row change nothing: whatever
      follows the last marker is never part of the result. */
  lemma FlattenIgnoresTail(width: nat, rows: seq<Row>, tail: seq<Row>)
    requires forall j :: 0 <= j < |tail| ==> !IsMarker(tail[j])
    ensures Flatten(Grid(width, rows + tail)) == Flatten(Grid(width, rows))
  {
    TablesIgnoreTail(rows, tail);
  }

  /** The result has as many rows as the blocks keep after dropping their
      PO-less rows, in total. */
  lemma FlattenRowCount(g: Grid)
    requires Flatten(g).Ok?
    ensures var ts := Tables(g.rows);
      HasPoColumns(ts) &&
      |Flatten(g).value.rows| ==
        TotalLength(seq(|ts|, i requires 0 <= i < |ts| => KeepWithValue(ts[i].rows, PoColumn(ts[i]).value)))
  {
    var ts := Tables(g.rows);
    var fs := FilledAll(DroppedAll(ts));
    var parts := seq(|fs|, i requires 0 <= i < |fs| => fs[i].rows);
    ConcatLength(parts);
    TotalLengthPointwise(parts, seq(|ts|, i requires 0 <= i < |ts| => KeepWithValue(ts[i].rows, PoColumn(ts[i]).value)));
  }

  lemma RowOfBlock(rows: seq<Row>, i: nat, r: Row)
    requires i < |Tables(rows)| && r in Tables(rows)[i].rows
    ensures r in rows
  {
    TableOfBlock(rows, i);
    var hs := Markers(rows);
    var k :| 0 <= k < |rows[hs[i] + 1..hs[i + 1]]| && rows[hs[i] + 1..hs[i + 1]][k] == r;
    assert rows[hs[i] + 1 + k] == r;
  }

  /** Every row of the result has the sheet's width, a vendor and a PO
      number; the header is the marker row of the first block. */
  lemma FlattenedRows(g: Grid)
    requires Rectangular(g) && Flatten(g).Ok?
    ensures var t := Flatten(g).value;
      |t.header| == g.width && IsMarker(t.header) && PoColumn(t).Some? &&
      forall r :: r in t.rows ==> |r| == g.width && r[0] != Empty && HasValue(r, PoColumn(t).value)
  {
    var ts := Tables(g.rows);
    var ds := DroppedAll(ts);
    var fs := FilledAll(ds);
    var t := Flatten(g).value;
    SameHeadersIffAll(fs);
    TableOfBlock(g.rows, 0);
    var c := PoColumn(ts[0]).value;
    assert t.header == ts[0].header;
    assert c != 0;
    var parts := seq(|fs|, i requires 0 <= i < |fs| => fs[i].rows);
    forall r | r in t.rows
      ensures |r| == g.width && r[0] != Empty && HasValue(r, c)
    {
      ConcatMember(parts, r);
      var i :| 0 <= i < |parts| && r in parts[i];
      var j :| 0 <= j < |fs[i].rows| && fs[i].rows[j] == r;
      var src := ds[i].rows[j];
      assert fs[i].header == ts[0].header;
      assert PoColumn(ts[i]).value == c;
      assert src in ts[i].rows && HasValue(src, c);
      RowOfBlock(g.rows, i, src);
      assert r == WithVendor(src, FirstVendor(ds[i].rows).value);
    }
  }
}
