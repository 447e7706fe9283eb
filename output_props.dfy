/** What the output frame holds, and where the column selection as written
    departs from it. */
module OutputProps {
  import opened Sheet
  import opened Comparison
  import opened ComparisonProps
  import opened Output

  predicate SomeExactMatch(rows: seq<DiffRow>)
  {
    exists i :: 0 <= i < |rows| && rows[i].deltas.Some?
  }

  /** The frame has the shared columns once it has a row, and the difference
      columns exactly when some row is an exact match. */
  lemma {:induction false} FrameColumnsShape(rows: seq<DiffRow>)
    ensures FrameColumns(rows) ==
      (if rows == [] then {} else set k | k in OutputOrder && k !in DiffLabels) +
      (if SomeExactMatch(rows) then DiffLabels else {})
  {
    if rows != [] {
      FrameColumnsShape(rows[1..]);
      assert SomeExactMatch(rows) <==> rows[0].deltas.Some? || SomeExactMatch(rows[1..]) by {
        if SomeExactMatch(rows[1..]) {
          var i :| 0 <= i < |rows[1..]| && rows[1..][i].deltas.Some?;
          assert rows[i + 1].deltas.Some?;
        }
        if SomeExactMatch(rows) && !rows[0].deltas.Some? {
          var i :| 0 <= i < |rows| && rows[i].deltas.Some?;
          assert rows[1..][i - 1].deltas.Some?;
        }
      }
    }
  }

  /** The selection as written succeeds exactly when some output row is an
      exact match, and then it agrees with the intended selection. */
  lemma SelectAsWrittenOk(rows: seq<DiffRow>)
    ensures SelectAsWritten(rows).Ok? <==> SomeExactMatch(rows)
    ensures SelectAsWritten(rows).Ok? ==> SelectAsWritten(rows).value == Select(rows)
  {
    FrameColumnsShape(rows);
    assert "apo_diff" in OutputOrder && "apo_diff" in DiffLabels;
    if SomeExactMatch(rows) {
      assert rows != [];
      forall k | k in OutputOrder ensures k in FrameColumns(rows) {
      }
    }
  }

  /** When no new row is an exact match of an old row (for one, when the new
      table is empty) `compare` as written fails, whereas the intended frame
      has one row per new row. */
  lemma NoExactMatchRejected(olds: seq<LineItem>, news: seq<LineItem>)
    requires Diff(olds, news).Ok?
    requires forall i :: 0 <= i < |news| ==> !KnownCostCode(olds, news[i].vendor, news[i].po, news[i].costCode)
    ensures ReportAsWritten(olds, news) == Err(MissingOutputColumns)
    ensures Report(olds, news).Ok? && |Report(olds, news).value| == |news|
  {
    var rows := Diff(olds, news).value;
    DiffOk(olds, news);
    forall i | 0 <= i < |rows| ensures rows[i].deltas.None? {
      ClassifyCases(olds, news[i]);
      KnownLevelsNest(olds, news[i].vendor, news[i].po, news[i].costCode);
    }
    SelectAsWrittenOk(rows);
  }

  /** The smallest such input: a first sheet with no line items and a second
      with one. As written `compare` fails; the intended frame has the one row,
      flagged as a new vendor, PO number and cost code. */
  lemma OnlyNewVendorRejected(item: LineItem)
    ensures ReportAsWritten([], [item]) == Err(MissingOutputColumns)
    ensures Report([], [item]) == Ok([Render(DiffRow(item, true, true, true, None))])
  {
    var news := [item];
    ClassifyCases([], item);
    DiffOk([], news);
    assert Diff([], news).value == [DiffRow(item, true, true, true, None)];
    NoExactMatchRejected([], news);
    assert Select([DiffRow(item, true, true, true, None)]) == [Render(DiffRow(item, true, true, true, None))];
  }

  /** The intended frame: one row per new row, in order, showing the row's
      keys and amounts and its flags; the difference columns are missing
      exactly for new vendors, PO numbers and cost codes, and otherwise
      hold new minus old. */
  lemma ReportRows(olds: seq<LineItem>, news: seq<LineItem>)
    ensures Report(olds, news).Ok? <==> Diff(olds, news).Ok?
    ensures Report(olds, news).Ok? ==>
      var out := Report(olds, news).value;
      |out| == |news| &&
      forall i :: 0 <= i < |news| ==>
        Classify(olds, news[i]).Ok? &&
        var d := Classify(olds, news[i]).value;
        |out[i]| == |OutputOrder| &&
        out[i][0] == news[i].vendor && out[i][2] == news[i].po && out[i][4] == news[i].costCode &&
        out[i][1] == Bool(d.newVendor) && out[i][3] == Bool(d.newPo) && out[i][5] == Bool(d.newCc) &&
        out[i][6] == Num(news[i].amounts.apo) && out[i][8] == Num(news[i].amounts.aco) &&
        out[i][10] == Num(news[i].amounts.tc) && out[i][12] == Num(news[i].amounts.invoiced) &&
        out[i][14] == Num(news[i].amounts.br) &&
        (forall k :: 0 <= k < |OutputOrder| && OutputOrder[k] in DiffLabels ==>
          (out[i][k] == Empty <==> d.newCc)) &&
        (d.deltas.Some? ==>
          out[i][7] == Num(d.deltas.value.apo) && out[i][9] == Num(d.deltas.value.aco) &&
          out[i][11] == Num(d.deltas.value.tc) && out[i][13] == Num(d.deltas.value.invoiced) &&
          out[i][15] == Num(d.deltas.value.br))
  {
    if Diff(olds, news).Ok? {
      DiffOk(olds, news);
      forall i | 0 <= i < |news| ensures Classify(olds, news[i]).Ok? {
      }
      forall i | 0 <= i < |news|
        ensures var d := Classify(olds, news[i]).value; d.item == news[i] && (d.deltas.Some? <==> !d.newCc)
      {
        ClassifyShape(olds, news[i]);
      }
    }
  }

  /** With a single old row of the same keys, a new row is an exact match
      against it. */
  lemma SingleOldExact(old1: LineItem, item: LineItem)
    requires SameKeys(old1, item)
    ensures Classify([old1], item) == Ok(DiffRow(item, false, false, false, Some(Minus(item.amounts, old1.amounts))))
  {
    var olds := [old1];
    assert SameKeys(olds[0], item);
    assert olds[1..] == [];
    assert Matching(olds, item) == [old1];
  }

  /** An unchanged line item whose amounts moved, followed by a line item of
      a vendor the first sheet does not have: the first gets new minus old,
      the second all three flags. */
  lemma ExactThenNewVendor(old1: LineItem, new1: LineItem, other: LineItem)
    requires SameKeys(old1, new1) && !KeyEq(old1.vendor, other.vendor)
    ensures Diff([old1], [new1, other]) ==
      Ok([DiffRow(new1, false, false, false, Some(Minus(new1.amounts, old1.amounts))),
          DiffRow(other, true, true, true, None)])
  {
    var olds := [old1];
    var news := [new1, other];
    SingleOldExact(old1, new1);
    assert !KnownVendor(olds, other.vendor) by {
      forall j | 0 <= j < |olds| ensures !KeyEq(olds[j].vendor, other.vendor) {
        assert olds[j] == old1;
      }
    }
    ClassifyCases(olds, other);
    DiffOk(olds, news);
    assert Diff(olds, news).value ==
      [DiffRow(new1, false, false, false, Some(Minus(new1.amounts, old1.amounts))),
       DiffRow(other, true, true, true, None)];
  }

  /** A cost code added under a vendor and PO number the first sheet has is
      flagged as a new cost code only. */
  lemma NewCostCodeOnly(old1: LineItem, new2: LineItem)
    requires KeyEq(old1.vendor, new2.vendor) && KeyEq(old1.po, new2.po) && !KeyEq(old1.costCode, new2.costCode)
    ensures Diff([old1], [new2]) == Ok([DiffRow(new2, false, false, true, None)])
  {
    var olds := [old1];
    var news := [new2];
    assert KeyEq(olds[0].vendor, new2.vendor) && KeyEq(olds[0].po, new2.po);
    assert !KnownCostCode(olds, new2.vendor, new2.po, new2.costCode) by {
      forall j | 0 <= j < |olds| ensures !KeyEq(olds[j].costCode, new2.costCode) {
        assert olds[j] == old1;
      }
    }
    ClassifyCases(olds, new2);
    DiffOk(olds, news);
    assert Diff(olds, news).value == [DiffRow(new2, false, false, true, None)];
  }
}
