/** What `compare` promises, proved about the specification `Comparison.Diff`. */
module ComparisonProps {
  import opened Sheet
  import opened Comparison

  /** The levels nest: a known cost code implies a known PO number, and a
      known PO number implies a known vendor. */
  lemma KnownLevelsNest(olds: seq<LineItem>, v: Cell, po: Cell, cc: Cell)
    ensures KnownCostCode(olds, v, po, cc) ==> KnownPo(olds, v, po)
    ensures KnownPo(olds, v, po) ==> KnownVendor(olds, v)
  {
  }

  /** The four cases, in priority order, with the flags each one sets. A new
      vendor is flagged as such even when its PO number and cost code occur
      under another vendor. */
  lemma ClassifyCases(olds: seq<LineItem>, item: LineItem)
    ensures !KnownVendor(olds, item.vendor) ==>
      Classify(olds, item) == Ok(DiffRow(item, true, true, true, None))
    ensures KnownVendor(olds, item.vendor) && !KnownPo(olds, item.vendor, item.po) ==>
      Classify(olds, item) == Ok(DiffRow(item, false, true, true, None))
    ensures KnownPo(olds, item.vendor, item.po) && !KnownCostCode(olds, item.vendor, item.po, item.costCode) ==>
      Classify(olds, item) == Ok(DiffRow(item, false, false, true, None))
    ensures KnownCostCode(olds, item.vendor, item.po, item.costCode) && Classify(olds, item).Ok? ==>
      var d := Classify(olds, item).value; !d.newVendor && !d.newPo && !d.newCc && d.deltas.Some?
  {
    KnownLevelsNest(olds, item.vendor, item.po, item.costCode);
  }

  /** Every output row copies its new row, its flags nest (new vendor implies
      new PO implies new cost code), and it carries differences exactly when
      no flag is set. */
  lemma ClassifyShape(olds: seq<LineItem>, item: LineItem)
    requires Classify(olds, item).Ok?
    ensures var d := Classify(olds, item).value;
      d.item == item && (d.newVendor ==> d.newPo) && (d.newPo ==> d.newCc) &&
      (d.deltas.Some? <==> !d.newCc)
  {
  }

  /** For an exact match at least one old row has the same keys, and the
      row fails exactly when more than one does. */
  lemma ExactMatchUnique(olds: seq<LineItem>, item: LineItem)
    requires KnownCostCode(olds, item.vendor, item.po, item.costCode)
    ensures |Matching(olds, item)| >= 1
    ensures Classify(olds, item).Err? <==> |Matching(olds, item)| > 1
    ensures |Matching(olds, item)| > 1 ==>
      Classify(olds, item) == Err(AmbiguousMatch(item.vendor, item.po, item.costCode, |Matching(olds, item)|))
  {
    KnownLevelsNest(olds, item.vendor, item.po, item.costCode);
    var j :| 0 <= j < |olds| && SameKeys(olds[j], item);
    assert olds[j] in Matching(olds, item);
  }

  /** For a successful exact match, the one old row with the same keys
      supplies the old amounts, and each difference is new minus old. */
  lemma ExactMatchDeltas(olds: seq<LineItem>, item: LineItem)
    requires KnownCostCode(olds, item.vendor, item.po, item.costCode)
    requires Classify(olds, item).Ok?
    ensures exists j :: 0 <= j < |olds| && SameKeys(olds[j], item) &&
                        (forall k :: 0 <= k < |olds| && SameKeys(olds[k], item) ==> olds[k] == olds[j]) &&
                        Classify(olds, item).value.deltas == Some(Amounts(
                          item.amounts.apo - olds[j].amounts.apo,
                          item.amounts.aco - olds[j].amounts.aco,
                          item.amounts.tc - olds[j].amounts.tc,
                          item.amounts.invoiced - olds[j].amounts.invoiced,
                          item.amounts.br - olds[j].amounts.br))
  {
    KnownLevelsNest(olds, item.vendor, item.po, item.costCode);
    var m := Matching(olds, item);
    ExactMatchUnique(olds, item);
    assert |m| == 1;
    assert m[0] in olds;
    var j :| 0 <= j < |olds| && olds[j] == m[0];
    forall k | 0 <= k < |olds| && SameKeys(olds[k], item) ensures olds[k] == olds[j] {
      assert olds[k] in m;
    }
  }

  /** Two distinct old rows with the keys of `item` both match it. */
  lemma {:induction false} MatchingTwo(olds: seq<LineItem>, item: LineItem, j: nat, k: nat)
    requires j < k < |olds| && SameKeys(olds[j], item) && SameKeys(olds[k], item)
    ensures |Matching(olds, item)| >= 2
  {
    if j == 0 {
      assert olds[k] == olds[1..][k - 1];
      assert olds[k] in Matching(olds[1..], item);
    } else {
      MatchingTwo(olds[1..], item, j - 1, k - 1);
    }
  }

  /** No old row with the keys of `item`, no matching rows. */
  lemma {:induction false} NoMatch(olds: seq<LineItem>, item: LineItem)
    requires forall k :: 0 <= k < |olds| ==> !SameKeys(olds[k], item)
    ensures Matching(olds, item) == []
  {
    if olds != [] {
      assert forall k :: 0 <= k < |olds[1..]| ==> olds[1..][k] == olds[k + 1];
      NoMatch(olds[1..], item);
    }
  }

  /** When old row `j` is the only one with the keys of `item`, the matching
      rows are exactly that one. */
  lemma {:induction false} MatchingOne(olds: seq<LineItem>, item: LineItem, j: nat)
    requires j < |olds| && SameKeys(olds[j], item)
    requires forall k :: 0 <= k < |olds| && SameKeys(olds[k], item) ==> k == j
    ensures Matching(olds, item) == [olds[j]]
  {
    if j == 0 {
      forall k | 0 <= k < |olds[1..]| ensures !SameKeys(olds[1..][k], item) {
        assert olds[1..][k] == olds[k + 1];
      }
      NoMatch(olds[1..], item);
    } else {
      assert !SameKeys(olds[0], item);
      forall k | 0 <= k < |olds[1..]| && SameKeys(olds[1..][k], item) ensures k == j - 1 {
        assert olds[1..][k] == olds[k + 1];
      }
      MatchingOne(olds[1..], item, j - 1);
    }
  }

  /** An exact match against exactly one old row succeeds, and each difference
      is new minus that row's value. */
  lemma UniqueMatchOk(olds: seq<LineItem>, item: LineItem, j: nat)
    requires j < |olds| && SameKeys(olds[j], item)
    requires forall k :: 0 <= k < |olds| && SameKeys(olds[k], item) ==> k == j
    ensures Classify(olds, item) ==
      Ok(DiffRow(item, false, false, false, Some(Minus(item.amounts, olds[j].amounts))))
  {
    MatchingOne(olds, item, j);
    assert KnownCostCode(olds, item.vendor, item.po, item.costCode);
    KnownLevelsNest(olds, item.vendor, item.po, item.costCode);
  }

  /** An exact match succeeds exactly when a single old row, by position, has
      the keys of `item`. */
  lemma ExactMatchOkIffUnique(olds: seq<LineItem>, item: LineItem)
    requires KnownCostCode(olds, item.vendor, item.po, item.costCode)
    ensures Classify(olds, item).Ok? <==>
      exists j :: 0 <= j < |olds| && SameKeys(olds[j], item) &&
        forall k :: 0 <= k < |olds| && SameKeys(olds[k], item) ==> k == j
  {
    var j :| 0 <= j < |olds| && SameKeys(olds[j], item);
    if forall k :: 0 <= k < |olds| && SameKeys(olds[k], item) ==> k == j {
      UniqueMatchOk(olds, item, j);
    } else {
      var k :| 0 <= k < |olds| && SameKeys(olds[k], item) && k != j;
      if j < k { DuplicateKeysRejected(olds, item, j, k); } else { DuplicateKeysRejected(olds, item, k, j); }
      forall i | 0 <= i < |olds| && SameKeys(olds[i], item)
        ensures exists k' :: 0 <= k' < |olds| && SameKeys(olds[k'], item) && k' != i
      {
        if i == j { assert k != i; } else { assert j != i; }
      }
    }
  }

  /** Two old rows sharing one vendor, PO number and cost code make every new
      row with those keys fail. */
  lemma DuplicateKeysRejected(olds: seq<LineItem>, item: LineItem, j: nat, k: nat)
    requires j < k < |olds| && SameKeys(olds[j], item) && SameKeys(olds[k], item)
    ensures Classify(olds, item) == Err(AmbiguousMatch(item.vendor, item.po, item.costCode, |Matching(olds, item)|))
  {
    MatchingTwo(olds, item, j, k);
    assert KnownCostCode(olds, item.vendor, item.po, item.costCode);
    ExactMatchUnique(olds, item);
  }

  /** The only way a row fails is an ambiguous exact match. */
  lemma ClassifyErr(olds: seq<LineItem>, item: LineItem)
    requires Classify(olds, item).Err?
    ensures KnownCostCode(olds, item.vendor, item.po, item.costCode) && |Matching(olds, item)| > 1
    ensures Classify(olds, item).error.AmbiguousMatch?
  {
    if KnownCostCode(olds, item.vendor, item.po, item.costCode) {
      ExactMatchUnique(olds, item);
    }
  }

  /** `compare` succeeds exactly when every new row can be classified; it
      then emits one output row per new row, in the new table's order. */
  lemma {:induction false} DiffOk(olds: seq<LineItem>, news: seq<LineItem>)
    ensures Diff(olds, news).Ok? <==> forall i :: 0 <= i < |news| ==> Classify(olds, news[i]).Ok?
    ensures Diff(olds, news).Ok? ==>
      |Diff(olds, news).value| == |news| &&
      forall i :: 0 <= i < |news| ==> Diff(olds, news).value[i] == Classify(olds, news[i]).value
  {
    if news != [] {
      var init := news[..|news| - 1];
      DiffOk(olds, init);
      assert forall i :: 0 <= i < |init| ==> init[i] == news[i];
    }
  }

  /** When `compare` fails, it fails with the error of the first new row
      that cannot be classified. */
  lemma {:induction false} DiffErr(olds: seq<LineItem>, news: seq<LineItem>)
    requires Diff(olds, news).Err?
    ensures exists i :: 0 <= i < |news| && Classify(olds, news[i]).Err? &&
                        Diff(olds, news).error == Classify(olds, news[i]).error &&
                        forall k :: 0 <= k < i ==> Classify(olds, news[k]).Ok?
  {
    var init := news[..|news| - 1];
    assert forall i :: 0 <= i < |init| ==> init[i] == news[i];
    if Diff(olds, init).Err? {
      DiffErr(olds, init);
      var i :| 0 <= i < |init| && Classify(olds, init[i]).Err? &&
        Diff(olds, init).error == Classify(olds, init[i]).error &&
        forall k :: 0 <= k < i ==> Classify(olds, init[k]).Ok?;
      assert Classify(olds, news[i]).Err?;
    } else {
      DiffOk(olds, init);
      assert Classify(olds, news[|news| - 1]).Err?;
    }
  }
}
