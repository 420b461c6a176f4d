/** The two data-quality tasks that run after the load: the blocking
    duplicate-order check and the non-blocking amount-mismatch check. Both look
    only at the staged rows of the processing day. */
module QualityChecks {
  import opened Tables

  // ---------------------------------------------------------------------------
  // Duplicate-order check

  /** The `cnt` of the `GROUP BY order_id` group of `id` among the rows of the day. */
  function CountInWindow(s: seq<StagedOrder>, id: string, today: int): nat {
    if s == [] then 0
    else (if InWindow(s[0], today) && s[0].orderId == id then 1 else 0) + CountInWindow(s[1..], id, today)
  }

  /** The groups that survive `HAVING cnt > 1`. */
  function DuplicateIds(s: seq<StagedOrder>, today: int): set<string> {
    set o | o in s && InWindow(o, today) && CountInWindow(s, o.orderId, today) > 1 :: o.orderId
  }

  /** `SELECT COUNT(*) = 0 FROM (...)`: the check passes when no group has a count above one. */
  predicate DuplicateCheckPasses(s: seq<StagedOrder>, today: int) {
    |DuplicateIds(s, today)| == 0
  }

  /** No two staged rows of the day carry the same order id. */
  ghost predicate UniqueInWindow(s: seq<StagedOrder>, today: int) {
    forall i, j :: 0 <= i < j < |s| && InWindow(s[i], today) && InWindow(s[j], today) ==> s[i].orderId != s[j].orderId
  }

  lemma {:induction false} CountPositive(s: seq<StagedOrder>, id: string, today: int)
    ensures CountInWindow(s, id, today) > 0 <==>
            exists i :: 0 <= i < |s| && InWindow(s[i], today) && s[i].orderId == id
  {
    if s != [] {
      CountPositive(s[1..], id, today);
      if CountInWindow(s[1..], id, today) > 0 {
        var i :| 0 <= i < |s[1..]| && InWindow(s[1..][i], today) && s[1..][i].orderId == id;
        assert s[i + 1] == s[1..][i];
      }
      if exists i :: 0 <= i < |s| && InWindow(s[i], today) && s[i].orderId == id {
        var i :| 0 <= i < |s| && InWindow(s[i], today) && s[i].orderId == id;
        if i > 0 {
          assert s[1..][i - 1] == s[i];
        }
      }
    }
  }

  lemma {:induction false} CountAboveOne(s: seq<StagedOrder>, id: string, today: int)
    ensures CountInWindow(s, id, today) > 1 <==>
            exists i, j :: 0 <= i < j < |s| && InWindow(s[i], today) && InWindow(s[j], today) &&
                           s[i].orderId == id && s[j].orderId == id
  {
    if s != [] {
      var t := s[1..];
      CountAboveOne(t, id, today);
      CountPositive(t, id, today);
      var headHits := InWindow(s[0], today) && s[0].orderId == id;
      if CountInWindow(s, id, today) > 1 {
        if headHits {
          var j :| 0 <= j < |t| && InWindow(t[j], today) && t[j].orderId == id;
          assert s[j + 1] == t[j];
        } else {
          var i, j :| 0 <= i < j < |t| && InWindow(t[i], today) && InWindow(t[j], today) &&
                      t[i].orderId == id && t[j].orderId == id;
          assert s[i + 1] == t[i] && s[j + 1] == t[j];
        }
      }
      if exists i, j :: 0 <= i < j < |s| && InWindow(s[i], today) && InWindow(s[j], today) &&
                        s[i].orderId == id && s[j].orderId == id {
        var i, j :| 0 <= i < j < |s| && InWindow(s[i], today) && InWindow(s[j], today) &&
                    s[i].orderId == id && s[j].orderId == id;
        assert t[j - 1] == s[j];
        if i > 0 {
          assert t[i - 1] == s[i];
        }
      }
    }
  }

  /** The check passes exactly when the order ids of the day's staged rows are pairwise distinct. */
  lemma DuplicateCheckPassesIff(s: seq<StagedOrder>, today: int)
    ensures DuplicateCheckPasses(s, today) <==> UniqueInWindow(s, today)
  {
    if !UniqueInWindow(s, today) {
      var i, j :| 0 <= i < j < |s| && InWindow(s[i], today) && InWindow(s[j], today) &&
                  s[i].orderId == s[j].orderId;
      CountAboveOne(s, s[i].orderId, today);
      assert s[i].orderId in DuplicateIds(s, today);
    }
    if !DuplicateCheckPasses(s, today) {
      var x :| x in DuplicateIds(s, today);
      var o :| o in s && InWindow(o, today) && CountInWindow(s, o.orderId, today) > 1 && o.orderId == x;
      CountAboveOne(s, x, today);
    }
  }

  lemma {:induction false} CountInWindowAppend(a: seq<StagedOrder>, b: seq<StagedOrder>, id: string, today: int)
    ensures CountInWindow(a + b, id, today) == CountInWindow(a, id, today) + CountInWindow(b, id, today)
  {
    if a == [] {
      assert a + b == b;
    } else {
      assert (a + b)[1..] == a[1..] + b;
      CountInWindowAppend(a[1..], b, id, today);
    }
  }

  /** A staged row of another day, wherever it stands, does not change the verdict. */
  lemma OtherDaysIgnored(a: seq<StagedOrder>, o: StagedOrder, b: seq<StagedOrder>, today: int)
    requires !InWindow(o, today)
    ensures DuplicateCheckPasses(a + [o] + b, today) == DuplicateCheckPasses(a + b, today)
  {
    var s, s' := a + [o] + b, a + b;
    forall id ensures CountInWindow(s, id, today) == CountInWindow(s', id, today) {
      CountInWindowAppend(a + [o], b, id, today);
      CountInWindowAppend(a, [o], id, today);
      CountInWindowAppend(a, b, id, today);
    }
    assert forall r :: r in s && InWindow(r, today) <==> r in s' && InWindow(r, today);
    assert DuplicateIds(s, today) == DuplicateIds(s', today);
  }

  // ---------------------------------------------------------------------------
  // Amount-mismatch check

  /** `ABS(calculated_total - total_amount) > 0.01`, in cents. */
  const TOLERANCE_CENTS: int := 1
  const AMOUNT_MISMATCH: string := "amount_mismatch"
  const WARNING: string := "warning"

  function Abs(x: int): nat {
    if x < 0 then -x else x
  }

  /** SQL `+` inside SUM: NULL inputs are skipped, and the sum of no non-NULL input is NULL. */
  function SumNullable(x: Option<int>, y: Option<int>): Option<int> {
    if x.None? then y
    else if y.None? then x
    else Some(x.value + y.value)
  }

  /** `(SELECT SUM(quantity * unit_price) FROM UNNEST(items))`. Under ROUND(.., 2) on cents the
      value is unchanged. */
  function ItemsTotal(items: seq<Item>): (r: Option<int>)
    ensures r.None? <==> forall k :: 0 <= k < |items| ==> LineTotal(items[k].quantity, items[k].unitPrice).None?
  {
    if items == [] then None
    else SumNullable(LineTotal(items[0].quantity, items[0].unitPrice), ItemsTotal(items[1..]))
  }

  /** The subquery total is a fold: the items of two parts sum as the parts do. */
  lemma {:induction false} ItemsTotalAppend(a: seq<Item>, b: seq<Item>)
    ensures ItemsTotal(a + b) == SumNullable(ItemsTotal(a), ItemsTotal(b))
  {
    if a == [] {
      assert a + b == b;
    } else {
      assert (a + b)[0] == a[0];
      assert (a + b)[1..] == a[1..] + b;
      ItemsTotalAppend(a[1..], b);
    }
  }

  /** When every item has a quantity and a price, the subquery is the plain sum of the line
      totals and adding an item adds its line total. */
  lemma ItemsTotalAddsItem(items: seq<Item>, it: Item)
    requires it.quantity.Some? && it.unitPrice.Some?
    ensures ItemsTotal(items + [it]) ==
            Some((if ItemsTotal(items).Some? then ItemsTotal(items).value else 0) + it.quantity.value * it.unitPrice.value)
  {
    ItemsTotalAppend(items, [it]);
    assert [it][1..] == [];
  }

  /** The columns of a row of the inner SELECT that passes the outer WHERE. */
  datatype Mismatch = Mismatch(orderId: string, calculatedTotal: int, totalAmount: int)

  /** The inner SELECT and outer WHERE for one staged row: a NULL calculated total makes the
      comparison NULL and drops the row. */
  function MismatchOf(o: StagedOrder): Option<Mismatch> {
    match ItemsTotal(o.items)
    case None => None
    case Some(c) => if Abs(c - o.totalAmount) > TOLERANCE_CENTS then Some(Mismatch(o.orderId, c, o.totalAmount)) else None
  }

  /** The rows the INSERT ... SELECT selects, in staging order. */
  function Mismatches(s: seq<StagedOrder>, today: int): seq<Mismatch> {
    if s == [] then []
    else
      (if InWindow(s[0], today) && MismatchOf(s[0]).Some? then [MismatchOf(s[0]).value] else []) +
      Mismatches(s[1..], today)
  }

  lemma {:induction false} MismatchesAppend(a: seq<StagedOrder>, b: seq<StagedOrder>, today: int)
    ensures Mismatches(a + b, today) == Mismatches(a, today) + Mismatches(b, today)
  {
    if a == [] {
      assert a + b == b;
    } else {
      assert (a + b)[0] == a[0];
      assert (a + b)[1..] == a[1..] + b;
      MismatchesAppend(a[1..], b, today);
    }
  }

  /** Each staged row contributes on its own: one selected row when it is of the day and its
      totals disagree by more than a cent, none otherwise. Two staged copies give two rows. */
  lemma MismatchesPerRow(a: seq<StagedOrder>, o: StagedOrder, b: seq<StagedOrder>, today: int)
    ensures Mismatches(a + [o] + b, today) ==
            Mismatches(a, today) +
            (if InWindow(o, today) && MismatchOf(o).Some? then [MismatchOf(o).value] else []) +
            Mismatches(b, today)
  {
    MismatchesAppend(a + [o], b, today);
    MismatchesAppend(a, [o], today);
    assert [o][1..] == [];
  }

  /** A selected row exists for exactly the day's staged rows whose recomputed total is non-NULL
      and differs from `total_amount` by more than the tolerance. */
  lemma {:induction false} MismatchMembership(s: seq<StagedOrder>, today: int, m: Mismatch)
    ensures m in Mismatches(s, today) <==>
            exists o :: o in s && InWindow(o, today) && ItemsTotal(o.items) == Some(m.calculatedTotal) &&
                        o.orderId == m.orderId && o.totalAmount == m.totalAmount &&
                        Abs(m.calculatedTotal - m.totalAmount) > TOLERANCE_CENTS
  {
    if s != [] {
      MismatchMembership(s[1..], today, m);
      if m in Mismatches(s[1..], today) {
        var o :| o in s[1..] && InWindow(o, today) && ItemsTotal(o.items) == Some(m.calculatedTotal) &&
                 o.orderId == m.orderId && o.totalAmount == m.totalAmount &&
                 Abs(m.calculatedTotal - m.totalAmount) > TOLERANCE_CENTS;
        assert o in s;
      }
    }
  }

  /** An order whose items have no non-NULL `quantity * unit_price` (in particular an order with
      no items) is never flagged, whatever its `total_amount`. */
  lemma NoLineTotalNeverFlagged(a: seq<StagedOrder>, o: StagedOrder, b: seq<StagedOrder>, today: int)
    requires forall k :: 0 <= k < |o.items| ==> o.items[k].quantity.None? || o.items[k].unitPrice.None?
    ensures Mismatches(a + [o] + b, today) == Mismatches(a + b, today)
  {
    MismatchesPerRow(a, o, b, today);
    MismatchesAppend(a, b, today);
  }

  /** The `issue_description` column, kept as the two amounts that CONCAT renders. */
  datatype Description = CalculatedVsRecorded(calculated: int, recorded: int)

  /** A row of `data_quality_checks`. */
  datatype Finding = Finding(
    checkId: string,
    checkTimestamp: int,
    checkType: string,
    orderId: string,
    issueDescription: Description,
    severity: string)

  /** The rows the amount-mismatch INSERT appends; `uuid(k)` is the k-th GENERATE_UUID() value and
      `now` is CURRENT_TIMESTAMP(). */
  function MismatchFindings(s: seq<StagedOrder>, today: int, now: int, uuid: nat -> string): (r: seq<Finding>)
    ensures |r| == |Mismatches(s, today)|
    ensures forall k :: 0 <= k < |r| ==>
      r[k].checkType == AMOUNT_MISMATCH && r[k].severity == WARNING && r[k].checkTimestamp == now &&
      r[k].checkId == uuid(k) &&
      r[k].orderId == Mismatches(s, today)[k].orderId &&
      r[k].issueDescription ==
        CalculatedVsRecorded(Mismatches(s, today)[k].calculatedTotal, Mismatches(s, today)[k].totalAmount)
  {
    var ms := Mismatches(s, today);
    seq(|ms|, k requires 0 <= k < |ms| =>
      Finding(uuid(k), now, AMOUNT_MISMATCH, ms[k].orderId,
              CalculatedVsRecorded(ms[k].calculatedTotal, ms[k].totalAmount), WARNING))
  }

  /** The ids of one run's findings are the first generated ids, so they are pairwise different
      when the generator never repeats a value. */
  lemma FindingIdsDistinct(s: seq<StagedOrder>, today: int, now: int, uuid: nat -> string)
    requires forall i: nat, j: nat :: i != j ==> uuid(i) != uuid(j)
    ensures var r := MismatchFindings(s, today, now, uuid);
            forall i, j :: 0 <= i < j < |r| ==> r[i].checkId != r[j].checkId
  {
  }

  /** A finding names an order exactly when a staged row of the day with that id has a non-NULL
      recomputed total more than a cent away from its recorded total, and it carries both amounts. */
  lemma FindingIffMismatch(s: seq<StagedOrder>, today: int, now: int, uuid: nat -> string,
                           id: string, calculated: int, recorded: int)
    ensures (exists f :: f in MismatchFindings(s, today, now, uuid) && f.orderId == id &&
                         f.issueDescription == CalculatedVsRecorded(calculated, recorded)) <==>
            (exists o :: o in s && InWindow(o, today) && o.orderId == id && o.totalAmount == recorded &&
                         ItemsTotal(o.items) == Some(calculated) && Abs(calculated - recorded) > TOLERANCE_CENTS)
  {
    var fs, ms := MismatchFindings(s, today, now, uuid), Mismatches(s, today);
    var m := Mismatch(id, calculated, recorded);
    MismatchMembership(s, today, m);
    if exists f :: f in fs && f.orderId == id && f.issueDescription == CalculatedVsRecorded(calculated, recorded) {
      var f :| f in fs && f.orderId == id && f.issueDescription == CalculatedVsRecorded(calculated, recorded);
      var k :| 0 <= k < |fs| && fs[k] == f;
      assert ms[k] == m;
    }
    if m in ms {
      var k :| 0 <= k < |ms| && ms[k] == m;
      assert fs[k] in fs;
    }
  }
}
