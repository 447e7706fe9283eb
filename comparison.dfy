/** The three-level diff of an old and a new flattened table (`compare` and
    `make_new_item_row` in jonah/jonah.py). */
module Comparison {
  import opened Sheet

  /** The five monetary columns, in the order the output lists them:
      approved purchase orders (A), approved change orders (B), total
      committed (C), invoiced (D) and balance remaining (E). */
  datatype Amounts = Amounts(apo: int, aco: int, tc: int, invoiced: int, br: int)

  /** One row of a flattened table, seen through the columns the diff reads. */
  datatype LineItem = LineItem(vendor: Cell, po: Cell, costCode: Cell, amounts: Amounts)

  /** One output row: the new row, its three flags, and the five differences
      for an exact match (`None` for the three kinds of new row). */
  datatype DiffRow = DiffRow(item: LineItem, newVendor: bool, newPo: bool, newCc: bool,
                             deltas: Option<Amounts>)

  /** Keys are compared as a column comparison does: a missing key is equal
      to nothing, not even to another missing key. */
  predicate KeyEq(a: Cell, b: Cell)
  {
    a != Empty && a == b
  }

  /** Column by column, the new amounts minus the old ones. */
  function Minus(x: Amounts, y: Amounts): Amounts
  {
    Amounts(x.apo - y.apo, x.aco - y.aco, x.tc - y.tc, x.invoiced - y.invoiced, x.br - y.br)
  }

  /** `make_new_item_row`: the row with its flags; a more general flag
      implies the more specific ones, and asking with no flag set fails. */
  function NewItemRow(item: LineItem, newVendor: bool, newPo: bool, newCc: bool): (r: Result<DiffRow>)
    ensures r.Err? <==> !newVendor && !newPo && !newCc
    ensures r.Err? ==> r.error == NoFlag
    ensures r.Ok? ==> r.value.item == item && r.value.deltas.None?
    ensures r.Ok? ==> r.value.newVendor == newVendor && (r.value.newPo <==> newVendor || newPo) && r.value.newCc
    ensures r.Ok? ==> (r.value.newVendor ==> r.value.newPo) && (r.value.newPo ==> r.value.newCc)
  {
    if !(newVendor || newPo || newCc) then Err(NoFlag)
    else Ok(DiffRow(item, newVendor, newVendor || newPo, newVendor || newPo || newCc, None))
  }

  /** Some old row has vendor `v`. */
  predicate KnownVendor(olds: seq<LineItem>, v: Cell)
  {
    exists j | 0 <= j < |olds| :: KeyEq(olds[j].vendor, v)
  }

  /** Some old row has vendor `v` and PO number `po`. */
  predicate KnownPo(olds: seq<LineItem>, v: Cell, po: Cell)
  {
    exists j | 0 <= j < |olds| :: KeyEq(olds[j].vendor, v) && KeyEq(olds[j].po, po)
  }

  /** Some old row has vendor `v`, PO number `po` and cost code `cc`. */
  predicate KnownCostCode(olds: seq<LineItem>, v: Cell, po: Cell, cc: Cell)
  {
    exists j | 0 <= j < |olds| :: KeyEq(olds[j].vendor, v) && KeyEq(olds[j].po, po) && KeyEq(olds[j].costCode, cc)
  }

  predicate SameKeys(x: LineItem, item: LineItem)
  {
    KeyEq(x.vendor, item.vendor) && KeyEq(x.po, item.po) && KeyEq(x.costCode, item.costCode)
  }

  /** The old rows with the same vendor, PO number and cost code as `item`,
      in their original order. */
  function Matching(olds: seq<LineItem>, item: LineItem): (m: seq<LineItem>)
    ensures |m| <= |olds|
    ensures forall x :: x in m <==> x in olds && SameKeys(x, item)
  {
    if olds == [] then []
    else (if SameKeys(olds[0], item) then [olds[0]] else []) + Matching(olds[1..], item)
  }

  /** The output row for one new row, decided by the first case that
      applies: new vendor, new PO, new cost code, exact match. */
  function Classify(olds: seq<LineItem>, item: LineItem): (r: Result<DiffRow>)
    ensures r.Ok? ==> r.value.item == item && (r.value.deltas.Some? <==> !r.value.newCc)
    ensures r.Err? ==> r == Err(AmbiguousMatch(item.vendor, item.po, item.costCode, |Matching(olds, item)|))
  {
    if !KnownVendor(olds, item.vendor) then NewItemRow(item, true, false, false)
    else if !KnownPo(olds, item.vendor, item.po) then NewItemRow(item, false, true, false)
    else if !KnownCostCode(olds, item.vendor, item.po, item.costCode) then NewItemRow(item, false, false, true)
    else
      var m := Matching(olds, item);
      if |m| != 1 then Err(AmbiguousMatch(item.vendor, item.po, item.costCode, |m|))
      else Ok(DiffRow(item, false, false, false, Some(Minus(item.amounts, m[0].amounts))))
  }

  /** The rows `compare` emits for the new table, in its order, or the error
      of the first new row it cannot classify. */
  function Diff(olds: seq<LineItem>, news: seq<LineItem>): (r: Result<seq<DiffRow>>)
    ensures r.Ok? ==> |r.value| == |news|
    ensures r.Err? ==> r.error.AmbiguousMatch?
  {
    if news == [] then Ok([])
    else match Diff(olds, news[..|news| - 1])
      case Err(e) => Err(e)
      case Ok(done) =>
        match Classify(olds, news[|news| - 1])
        case Err(e) => Err(e)
        case Ok(d) => Ok(done + [d])
  }

  /** Once a prefix of the new table fails, the whole comparison fails with
      the same error. */
  lemma {:induction false} DiffPrefixErr(olds: seq<LineItem>, news: seq<LineItem>, k: nat)
    requires k <= |news| && Diff(olds, news[..k]).Err?
    ensures Diff(olds, news) == Diff(olds, news[..k])
    decreases |news| - k
  {
    if k < |news| {
      var p := news[..k + 1];
      assert p[..|p| - 1] == news[..k];
      DiffPrefixErr(olds, news, k + 1);
    } else {
      assert news[..k] == news;
    }
  }

  /** `compare`: gather the old vendors and, per vendor, its PO numbers; then
      classify each new row in turn and append its output row. */
  method Compare(olds: seq<LineItem>, news: seq<LineItem>) returns (r: Result<seq<DiffRow>>)
    ensures r == Diff(olds, news)
  {
    var vendors := set j | 0 <= j < |olds| && olds[j].vendor != Empty :: olds[j].vendor;
    var pos := map v | v in vendors ::
      set j | 0 <= j < |olds| && KeyEq(olds[j].vendor, v) && olds[j].po != Empty :: olds[j].po;
    var diff: seq<DiffRow> := [];
    for i := 0 to |news|
      invariant Diff(olds, news[..i]) == Ok(diff)
    {
      var row := news[i];
      assert news[..i + 1][..i] == news[..i];
      var d: DiffRow;
      if row.vendor !in vendors {
        assert !KnownVendor(olds, row.vendor);
        d := NewItemRow(row, true, false, false).value;
      } else if row.po !in pos[row.vendor] {
        assert KnownVendor(olds, row.vendor);
        assert !KnownPo(olds, row.vendor, row.po);
        d := NewItemRow(row, false, true, false).value;
      } else if row.costCode !in set j | 0 <= j < |olds| && KeyEq(olds[j].vendor, row.vendor) &&
                                       KeyEq(olds[j].po, row.po) && olds[j].costCode != Empty :: olds[j].costCode {
        assert KnownPo(olds, row.vendor, row.po);
        assert !KnownCostCode(olds, row.vendor, row.po, row.costCode);
        d := NewItemRow(row, false, false, true).value;
      } else {
        assert KnownCostCode(olds, row.vendor, row.po, row.costCode);
        var m := Matching(olds, row);
        if |m| != 1 {
          DiffPrefixErr(olds, news, i + 1);
          return Err(AmbiguousMatch(row.vendor, row.po, row.costCode, |m|));
        }
        d := DiffRow(row, false, false, false, Some(Minus(row.amounts, m[0].amounts)));
      }
      diff := diff + [d];
    }
    assert news[..|news|] == news;
    r := Ok(diff);
  }
}
