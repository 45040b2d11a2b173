/** The reconciliation rule the reconciliation agent is told to apply: stock
    count items and ERP items are matched by a key made of the transaction
    id and the item code, only `book_bulk` and `book_actual` are compared,
    and the transaction is approved exactly when no compared item differs.
    No Python code implements the rule; this module states it as functions
    over the two backends' records. */
module Reconciliation {
  import opened StockCount
  import opened Erp

  // ---------------------------------------------------------------------------
  // Keys

  /** The matching key `transaction_id + "_" + item_code`. */
  function Key(transactionId: string, itemCode: string): string {
    transactionId + "_" + itemCode
  }

  function StockKey(s: StockCountItem): string {
    Key(s.transactionId, s.itemCode)
  }

  function ErpKey(e: ErpItem): string {
    Key(e.transactionId, e.itemCode)
  }

  /** In a key built from an id without an underscore, the first underscore
      is the one just after the id. */
  lemma FirstUnderscore(t: string, c: string)
    requires '_' !in t
    ensures Key(t, c)[|t|] == '_'
    ensures forall i :: 0 <= i < |t| ==> Key(t, c)[i] != '_'
  {
    assert forall i :: 0 <= i < |t| ==> Key(t, c)[i] == t[i];
  }

  /** Transaction ids without an underscore give distinct pairs distinct keys. */
  lemma KeyInjective(t1: string, c1: string, t2: string, c2: string)
    requires '_' !in t1 && '_' !in t2
    requires Key(t1, c1) == Key(t2, c2)
    ensures t1 == t2 && c1 == c2
  {
    var k := Key(t1, c1);
    FirstUnderscore(t1, c1);
    FirstUnderscore(t2, c2);
    var n := if |t1| <= |t2| then |t1| else |t2|;
    assert k[n] == '_';
    assert |t1| == |t2|;
    assert t1 == k[..|t1|] == t2;
    assert c1 == k[|t1| + 1..] == c2;
  }

  /** With an underscore in the transaction id, two items can share a key. */
  lemma KeysCanCollide()
    ensures Key("T_1", "X") == Key("T", "1_X")
  {
  }

  // ---------------------------------------------------------------------------
  // The ERP side, keyed

  /** The ERP items by key, as a dict built from the list: a later item with
      the same key replaces an earlier one. */
  function ErpIndex(erp: seq<ErpItem>): map<string, ErpItem> {
    if erp == [] then map[]
    else ErpIndex(erp[..|erp| - 1])[ErpKey(erp[|erp| - 1]) := erp[|erp| - 1]]
  }

  /** The index holds exactly the keys of the ERP items. */
  lemma {:induction false} ErpIndexKeys(erp: seq<ErpItem>)
    ensures forall k :: k in ErpIndex(erp) <==> exists j :: 0 <= j < |erp| && ErpKey(erp[j]) == k
  {
    if erp != [] {
      var n := |erp| - 1;
      ErpIndexKeys(erp[..n]);
      assert forall j :: 0 <= j < n ==> erp[..n][j] == erp[j];
    }
  }

  /** Each key maps to the last ERP item that has it. */
  lemma {:induction false} ErpIndexLast(erp: seq<ErpItem>, k: string)
    requires k in ErpIndex(erp)
    ensures exists j :: 0 <= j < |erp| && ErpIndex(erp)[k] == erp[j] && ErpKey(erp[j]) == k
                        && forall j' :: j < j' < |erp| ==> ErpKey(erp[j']) != k
  {
    var n := |erp| - 1;
    var init := erp[..n];
    assert ErpIndex(erp) == ErpIndex(init)[ErpKey(erp[n]) := erp[n]];
    if ErpKey(erp[n]) == k {
      assert ErpIndex(erp)[k] == erp[n];
    } else {
      assert k in ErpIndex(init);
      ErpIndexLast(init, k);
      var j :| 0 <= j < |init| && ErpIndex(init)[k] == init[j] && ErpKey(init[j]) == k
               && forall j' :: j < j' < |init| ==> ErpKey(init[j']) != k;
      assert init[j] == erp[j];
      assert ErpIndex(erp)[k] == erp[j];
      forall j' | j < j' < |erp| ensures ErpKey(erp[j']) != k {
        if j' < n {
          assert erp[j'] == init[j'];
        }
      }
    }
  }

  /** The keys of the stock count items. */
  function StockKeys(stock: seq<StockCountItem>): set<string> {
    set j | 0 <= j < |stock| :: StockKey(stock[j])
  }

  // ---------------------------------------------------------------------------
  // Comparison

  /** One compared item: its identity, the two differences (stock count minus
      ERP) and the review flag. */
  datatype ItemComparison = ItemComparison(
    transactionId: string,
    itemCode: string,
    bulkDifference: int,
    actualDifference: int,
    isReviewYn: string)

  predicate HasDiscrepancy(c: ItemComparison) {
    c.bulkDifference != 0 || c.actualDifference != 0
  }

  /** Compares one stock count item with the ERP item of the same key: the
      differences are stock count minus ERP, and an item that differs in
      either field is flagged for review. */
  function Compared(s: StockCountItem, e: ErpItem): ItemComparison {
    var bulk := s.bookBulk - e.bookBulk;
    var actual := s.bookActual - e.bookActual;
    ItemComparison(s.transactionId, s.itemCode, bulk, actual,
                   if bulk != 0 || actual != 0 then "Y" else "N")
  }

  /** The comparisons of the stock count items that have an ERP match, in
      stock count order. */
  function Compare(stock: seq<StockCountItem>, index: map<string, ErpItem>): seq<ItemComparison> {
    if stock == [] then []
    else
      var k := StockKey(stock[0]);
      (if k in index then [Compared(stock[0], index[k])] else []) + Compare(stock[1..], index)
  }

  /** The keys of the stock count items without an ERP match: "missing_in_erp". */
  function MissingInErp(stock: seq<StockCountItem>, index: map<string, ErpItem>): seq<string> {
    if stock == [] then []
    else
      var k := StockKey(stock[0]);
      (if k in index then [] else [k]) + MissingInErp(stock[1..], index)
  }

  /** The keys of the ERP items without a stock count match: "missing_in_stock_count". */
  function MissingInStockCount(erp: seq<ErpItem>, stockKeys: set<string>): seq<string> {
    if erp == [] then []
    else
      var k := ErpKey(erp[0]);
      (if k in stockKeys then [] else [k]) + MissingInStockCount(erp[1..], stockKeys)
  }

  function CountApproved(items: seq<ItemComparison>): nat {
    if items == [] then 0
    else (if HasDiscrepancy(items[0]) then 0 else 1) + CountApproved(items[1..])
  }

  function CountReview(items: seq<ItemComparison>): nat {
    if items == [] then 0
    else (if HasDiscrepancy(items[0]) then 1 else 0) + CountReview(items[1..])
  }

  // ---------------------------------------------------------------------------
  // The decision

  datatype Status = Approved | Rejected

  /** The reconciliation's result: the overall approval, the compared items,
      the summary counts and the keys found on one side only. */
  datatype Report = Report(
    status: Status,
    items: seq<ItemComparison>,
    totalCompared: nat,
    itemsApproved: nat,
    itemsForReview: nat,
    missingInErp: seq<string>,
    missingInStockCount: seq<string>)

  /** Reconciles a stock count against the ERP records: APPROVED when no
      compared item differs in `book_bulk` or `book_actual`, REJECTED
      otherwise. */
  function Reconcile(stock: seq<StockCountItem>, erp: seq<ErpItem>): Report {
    var index := ErpIndex(erp);
    Summarize(Compare(stock, index), MissingInErp(stock, index), MissingInStockCount(erp, StockKeys(stock)))
  }

  /** The report on a list of compared items and the missing keys. */
  function Summarize(items: seq<ItemComparison>, missingInErp: seq<string>, missingInStockCount: seq<string>): Report {
    var status := if forall i :: 0 <= i < |items| ==> !HasDiscrepancy(items[i]) then Approved else Rejected;
    Report(status, items, |items|, CountApproved(items), CountReview(items), missingInErp, missingInStockCount)
  }

  // ---------------------------------------------------------------------------
  // Properties

  /** The compared items are exactly the stock count items with an ERP match,
      each compared with the ERP item of its key. */
  lemma {:induction false} CompareMembers(stock: seq<StockCountItem>, index: map<string, ErpItem>)
    ensures forall j :: 0 <= j < |stock| && StockKey(stock[j]) in index ==>
              Compared(stock[j], index[StockKey(stock[j])]) in Compare(stock, index)
    ensures forall c :: c in Compare(stock, index) ==>
              exists j :: 0 <= j < |stock| && StockKey(stock[j]) in index
                          && c == Compared(stock[j], index[StockKey(stock[j])])
  {
    if stock != [] {
      CompareMembers(stock[1..], index);
      assert forall j :: 1 <= j < |stock| ==> stock[j] == stock[1..][j - 1];
      forall c | c in Compare(stock, index)
        ensures exists j :: 0 <= j < |stock| && StockKey(stock[j]) in index
                            && c == Compared(stock[j], index[StockKey(stock[j])])
      {
        if c !in Compare(stock[1..], index) {
          assert StockKey(stock[0]) in index && c == Compared(stock[0], index[StockKey(stock[0])]);
        } else {
          var j :| 0 <= j < |stock[1..]| && StockKey(stock[1..][j]) in index
                   && c == Compared(stock[1..][j], index[StockKey(stock[1..][j])]);
          assert stock[1..][j] == stock[j + 1];
        }
      }
    }
  }

  /** Every compared item is flagged "Y" exactly when it differs, and "N"
      otherwise. */
  lemma {:induction false} ReviewFlags(stock: seq<StockCountItem>, index: map<string, ErpItem>)
    ensures forall i :: 0 <= i < |Compare(stock, index)| ==>
              Compare(stock, index)[i].isReviewYn == (if HasDiscrepancy(Compare(stock, index)[i]) then "Y" else "N")
  {
    if stock != [] {
      ReviewFlags(stock[1..], index);
    }
  }

  /** Each compared item gets exactly one of the two counts, and none needs
      review exactly when none differs. */
  lemma {:induction false} CountsAddUp(items: seq<ItemComparison>)
    ensures CountApproved(items) + CountReview(items) == |items|
    ensures CountReview(items) == 0 <==> forall i :: 0 <= i < |items| ==> !HasDiscrepancy(items[i])
  {
    if items != [] {
      CountsAddUp(items[1..]);
      assert forall i :: 1 <= i < |items| ==> items[i] == items[1..][i - 1];
    }
  }

  /** The report's counts agree with its status and with each other. */
  lemma ReportCounts(stock: seq<StockCountItem>, erp: seq<ErpItem>)
    ensures Reconcile(stock, erp).itemsApproved + Reconcile(stock, erp).itemsForReview
         == Reconcile(stock, erp).totalCompared
    ensures Reconcile(stock, erp).status == Approved <==> Reconcile(stock, erp).itemsForReview == 0
  {
    CountsAddUp(Compare(stock, ErpIndex(erp)));
  }

  /** The stock count items with an ERP match agree with it in `book_bulk`
      and `book_actual`. */
  predicate BooksAgree(stock: seq<StockCountItem>, index: map<string, ErpItem>) {
    forall j :: 0 <= j < |stock| && StockKey(stock[j]) in index ==>
      stock[j].bookBulk == index[StockKey(stock[j])].bookBulk
      && stock[j].bookActual == index[StockKey(stock[j])].bookActual
  }

  /** No compared item differs exactly when the matched items agree. */
  lemma NoDiscrepancyIff(stock: seq<StockCountItem>, index: map<string, ErpItem>)
    ensures (forall i :: 0 <= i < |Compare(stock, index)| ==> !HasDiscrepancy(Compare(stock, index)[i]))
        <==> BooksAgree(stock, index)
  {
    NoDiscrepancyMeansAgree(stock, index);
    AgreeMeansNoDiscrepancy(stock, index);
  }

  lemma NoDiscrepancyMeansAgree(stock: seq<StockCountItem>, index: map<string, ErpItem>)
    ensures (forall i :: 0 <= i < |Compare(stock, index)| ==> !HasDiscrepancy(Compare(stock, index)[i]))
            ==> BooksAgree(stock, index)
  {
    var items := Compare(stock, index);
    CompareMembers(stock, index);
    forall j | 0 <= j < |stock| && StockKey(stock[j]) in index
             && forall i :: 0 <= i < |items| ==> !HasDiscrepancy(items[i])
      ensures stock[j].bookBulk == index[StockKey(stock[j])].bookBulk
              && stock[j].bookActual == index[StockKey(stock[j])].bookActual
    {
      var c := Compared(stock[j], index[StockKey(stock[j])]);
      assert c in items;
      var i :| 0 <= i < |items| && items[i] == c;
      assert !HasDiscrepancy(c);
    }
  }

  lemma AgreeMeansNoDiscrepancy(stock: seq<StockCountItem>, index: map<string, ErpItem>)
    ensures BooksAgree(stock, index) ==>
              forall i :: 0 <= i < |Compare(stock, index)| ==> !HasDiscrepancy(Compare(stock, index)[i])
  {
    var items := Compare(stock, index);
    CompareMembers(stock, index);
    forall i | 0 <= i < |items| && BooksAgree(stock, index) ensures !HasDiscrepancy(items[i]) {
      assert items[i] in items;
      var j :| 0 <= j < |stock| && StockKey(stock[j]) in index
               && items[i] == Compared(stock[j], index[StockKey(stock[j])]);
      var e := index[StockKey(stock[j])];
      assert stock[j].bookBulk == e.bookBulk && stock[j].bookActual == e.bookActual;
      assert items[i].bulkDifference == 0 && items[i].actualDifference == 0;
    }
  }

  /** The overall result is APPROVED exactly when every stock count item with
      an ERP match agrees with the ERP item in both compared fields. */
  lemma ApprovedIff(stock: seq<StockCountItem>, erp: seq<ErpItem>)
    ensures Reconcile(stock, erp).status == Approved <==> BooksAgree(stock, ErpIndex(erp))
  {
    NoDiscrepancyIff(stock, ErpIndex(erp));
  }

  /** Against an empty ERP index nothing is compared and every stock count
      item is reported missing in ERP. */
  lemma {:induction false} NothingIndexed(stock: seq<StockCountItem>)
    ensures Compare(stock, map[]) == []
    ensures |MissingInErp(stock, map[])| == |stock|
  {
    if stock != [] {
      NothingIndexed(stock[1..]);
    }
  }

  /** The approval rests on the compared items only: with no ERP records the
      result is APPROVED, nothing is compared, and every stock count item is
      reported missing in ERP. */
  lemma NoErpDataIsApproved(stock: seq<StockCountItem>)
    ensures Reconcile(stock, []).status == Approved
    ensures Reconcile(stock, []).totalCompared == 0
    ensures forall j :: 0 <= j < |stock| ==> StockKey(stock[j]) in Reconcile(stock, []).missingInErp
  {
    NothingIndexed(stock);
    forall j | 0 <= j < |stock| ensures StockKey(stock[j]) in MissingInErp(stock, map[]) {
      MissingInErpIff(stock, map[], StockKey(stock[j]));
    }
  }

  /** Likewise with no stock count items: APPROVED, nothing compared, and
      every ERP record reported missing in the stock count. */
  lemma NoStockCountIsApproved(erp: seq<ErpItem>)
    ensures Reconcile([], erp).status == Approved
    ensures Reconcile([], erp).totalCompared == 0
    ensures forall j :: 0 <= j < |erp| ==> ErpKey(erp[j]) in Reconcile([], erp).missingInStockCount
  {
    assert StockKeys([]) == {};
    forall j | 0 <= j < |erp| ensures ErpKey(erp[j]) in MissingInStockCount(erp, {}) {
      MissingInStockCountIff(erp, {}, ErpKey(erp[j]));
    }
  }

  /** A key is reported missing in ERP exactly when a stock count item has it
      and no ERP item does. */
  lemma {:induction false} MissingInErpIff(stock: seq<StockCountItem>, index: map<string, ErpItem>, k: string)
    ensures k in MissingInErp(stock, index) <==>
              k !in index && exists j :: 0 <= j < |stock| && StockKey(stock[j]) == k
  {
    if stock != [] {
      MissingInErpIff(stock[1..], index, k);
      assert forall j :: 1 <= j < |stock| ==> stock[j] == stock[1..][j - 1];
      if k !in index && exists j :: 0 <= j < |stock| && StockKey(stock[j]) == k {
        var j :| 0 <= j < |stock| && StockKey(stock[j]) == k;
        if j > 0 {
          assert StockKey(stock[1..][j - 1]) == k;
        }
      }
    }
  }

  /** A key is reported missing in the stock count exactly when an ERP item
      has it and no stock count item does. */
  lemma {:induction false} MissingInStockCountIff(erp: seq<ErpItem>, stockKeys: set<string>, k: string)
    ensures k in MissingInStockCount(erp, stockKeys) <==>
              k !in stockKeys && exists j :: 0 <= j < |erp| && ErpKey(erp[j]) == k
  {
    if erp != [] {
      MissingInStockCountIff(erp[1..], stockKeys, k);
      assert forall j :: 1 <= j < |erp| ==> erp[j] == erp[1..][j - 1];
      if k !in stockKeys && exists j :: 0 <= j < |erp| && ErpKey(erp[j]) == k {
        var j :| 0 <= j < |erp| && ErpKey(erp[j]) == k;
        if j > 0 {
          assert ErpKey(erp[1..][j - 1]) == k;
        }
      }
    }
  }

  /** Both reports of missing keys, stated on the inputs. */
  lemma MissingKeys(stock: seq<StockCountItem>, erp: seq<ErpItem>, k: string)
    ensures k in Reconcile(stock, erp).missingInErp <==>
              (exists j :: 0 <= j < |stock| && StockKey(stock[j]) == k)
              && !(exists j :: 0 <= j < |erp| && ErpKey(erp[j]) == k)
    ensures k in Reconcile(stock, erp).missingInStockCount <==>
              (exists j :: 0 <= j < |erp| && ErpKey(erp[j]) == k)
              && !(exists j :: 0 <= j < |stock| && StockKey(stock[j]) == k)
  {
    ErpIndexKeys(erp);
    MissingInErpIff(stock, ErpIndex(erp), k);
    MissingInStockCountIff(erp, StockKeys(stock), k);
  }

  // ---------------------------------------------------------------------------
  // Only the two compared fields matter

  /** Two stock counts that agree item by item in everything the rule reads:
      the key fields and the two compared quantities. */
  predicate SameStockBooks(a: seq<StockCountItem>, b: seq<StockCountItem>) {
    |a| == |b| &&
    forall j :: 0 <= j < |a| ==>
      a[j].transactionId == b[j].transactionId && a[j].itemCode == b[j].itemCode
      && a[j].bookBulk == b[j].bookBulk && a[j].bookActual == b[j].bookActual
  }

  predicate SameErpBooks(a: seq<ErpItem>, b: seq<ErpItem>) {
    |a| == |b| &&
    forall j :: 0 <= j < |a| ==>
      a[j].transactionId == b[j].transactionId && a[j].itemCode == b[j].itemCode
      && a[j].bookBulk == b[j].bookBulk && a[j].bookActual == b[j].bookActual
  }

  /** Two key maps with the same keys whose items agree in the compared fields. */
  predicate SameIndexBooks(x: map<string, ErpItem>, y: map<string, ErpItem>) {
    x.Keys == y.Keys &&
    forall k :: k in x ==> x[k].bookBulk == y[k].bookBulk && x[k].bookActual == y[k].bookActual
  }

  lemma {:induction false} ErpIndexBooks(a: seq<ErpItem>, b: seq<ErpItem>)
    requires SameErpBooks(a, b)
    ensures SameIndexBooks(ErpIndex(a), ErpIndex(b))
  {
    if a != [] {
      var n := |a| - 1;
      assert SameErpBooks(a[..n], b[..n]) by {
        assert forall j :: 0 <= j < n ==> a[..n][j] == a[j] && b[..n][j] == b[j];
      }
      ErpIndexBooks(a[..n], b[..n]);
      assert ErpKey(a[n]) == ErpKey(b[n]);
    }
  }

  lemma {:induction false} CompareBooks(a: seq<StockCountItem>, b: seq<StockCountItem>,
                                        x: map<string, ErpItem>, y: map<string, ErpItem>)
    requires SameStockBooks(a, b) && SameIndexBooks(x, y)
    ensures Compare(a, x) == Compare(b, y)
    ensures MissingInErp(a, x) == MissingInErp(b, y)
  {
    if a != [] {
      assert SameStockBooks(a[1..], b[1..]) by {
        assert forall j :: 0 <= j < |a| - 1 ==> a[1..][j] == a[j + 1] && b[1..][j] == b[j + 1];
      }
      CompareBooks(a[1..], b[1..], x, y);
      assert StockKey(a[0]) == StockKey(b[0]);
    }
  }

  lemma {:induction false} MissingInStockCountBooks(a: seq<ErpItem>, b: seq<ErpItem>, keys: set<string>)
    requires SameErpBooks(a, b)
    ensures MissingInStockCount(a, keys) == MissingInStockCount(b, keys)
  {
    if a != [] {
      assert SameErpBooks(a[1..], b[1..]) by {
        assert forall j :: 0 <= j < |a| - 1 ==> a[1..][j] == a[j + 1] && b[1..][j] == b[j + 1];
      }
      MissingInStockCountBooks(a[1..], b[1..], keys);
      assert ErpKey(a[0]) == ErpKey(b[0]);
    }
  }

  /** Changing `float_book`, `float_actual`, `item_desc` or `is_review_yn` on
      either side never changes the reconciliation. */
  lemma OnlyBooksMatter(stock: seq<StockCountItem>, stock': seq<StockCountItem>,
                        erp: seq<ErpItem>, erp': seq<ErpItem>)
    requires SameStockBooks(stock, stock') && SameErpBooks(erp, erp')
    ensures Reconcile(stock, erp) == Reconcile(stock', erp')
  {
    ErpIndexBooks(erp, erp');
    CompareBooks(stock, stock', ErpIndex(erp), ErpIndex(erp'));
    assert StockKeys(stock) == StockKeys(stock') by {
      assert forall j :: 0 <= j < |stock| ==> StockKey(stock[j]) == StockKey(stock'[j]);
    }
    MissingInStockCountBooks(erp, erp', StockKeys(stock));
  }

  // ---------------------------------------------------------------------------
  // The seed transaction

  /** Three ERP items of distinct keys, by key. */
  lemma ThreeIndexed(e1: ErpItem, e2: ErpItem, e3: ErpItem)
    ensures ErpIndex([e1, e2, e3]) == map[ErpKey(e1) := e1, ErpKey(e2) := e2, ErpKey(e3) := e3]
  {
    assert [e1, e2, e3][..2] == [e1, e2] && [e1, e2][..1] == [e1] && [e1][..0] == [];
    assert ErpIndex([e1]) == map[ErpKey(e1) := e1];
    assert ErpIndex([e1, e2]) == map[ErpKey(e1) := e1, ErpKey(e2) := e2];
  }

  lemma ThreeCompared(s1: StockCountItem, s2: StockCountItem, s3: StockCountItem, index: map<string, ErpItem>)
    requires StockKey(s1) in index && StockKey(s2) in index && StockKey(s3) in index
    ensures Compare([s1, s2, s3], index)
         == [Compared(s1, index[StockKey(s1)]), Compared(s2, index[StockKey(s2)]), Compared(s3, index[StockKey(s3)])]
    ensures MissingInErp([s1, s2, s3], index) == []
  {
    assert [s1, s2, s3][1..] == [s2, s3] && [s2, s3][1..] == [s3] && [s3][1..] == [];
    assert Compare([s3], index) == [Compared(s3, index[StockKey(s3)])];
    assert Compare([s2, s3], index) == [Compared(s2, index[StockKey(s2)]), Compared(s3, index[StockKey(s3)])];
    assert MissingInErp([s3], index) == [] && MissingInErp([s2, s3], index) == [];
  }

  lemma ThreeKeys(s1: StockCountItem, s2: StockCountItem, s3: StockCountItem)
    ensures StockKey(s1) in StockKeys([s1, s2, s3]) && StockKey(s2) in StockKeys([s1, s2, s3])
            && StockKey(s3) in StockKeys([s1, s2, s3])
  {
    var stock := [s1, s2, s3];
    assert StockKey(stock[0]) == StockKey(s1) && StockKey(stock[1]) == StockKey(s2) && StockKey(stock[2]) == StockKey(s3);
  }

  lemma ThreeFound(e1: ErpItem, e2: ErpItem, e3: ErpItem, keys: set<string>)
    requires ErpKey(e1) in keys && ErpKey(e2) in keys && ErpKey(e3) in keys
    ensures MissingInStockCount([e1, e2, e3], keys) == []
  {
    assert [e1, e2, e3][1..] == [e2, e3] && [e2, e3][1..] == [e3] && [e3][1..] == [];
    assert MissingInStockCount([e3], keys) == [] && MissingInStockCount([e2, e3], keys) == [];
  }

  /** Three stock count items matched one to one, in order, with three ERP
      items of distinct keys: every item is compared with its partner and no
      key is missing on either side. */
  lemma ThreeMatched(s1: StockCountItem, s2: StockCountItem, s3: StockCountItem,
                     e1: ErpItem, e2: ErpItem, e3: ErpItem)
    requires StockKey(s1) == ErpKey(e1) && StockKey(s2) == ErpKey(e2) && StockKey(s3) == ErpKey(e3)
    requires ErpKey(e1) != ErpKey(e2) && ErpKey(e1) != ErpKey(e3) && ErpKey(e2) != ErpKey(e3)
    ensures Reconcile([s1, s2, s3], [e1, e2, e3])
         == Summarize([Compared(s1, e1), Compared(s2, e2), Compared(s3, e3)], [], [])
  {
    ThreeIndexed(e1, e2, e3);
    ThreeCompared(s1, s2, s3, ErpIndex([e1, e2, e3]));
    ThreeKeys(s1, s2, s3);
    ThreeFound(e1, e2, e3, StockKeys([s1, s2, s3]));
  }

  /** The three items of TXN001 have the same keys on both sides, and
      distinct ones. */
  lemma SeedKeys()
    ensures StockKey(Stock1) == ErpKey(Erp1) && StockKey(Stock2) == ErpKey(Erp2) && StockKey(Stock3) == ErpKey(Erp3)
    ensures ErpKey(Erp1) != ErpKey(Erp2) && ErpKey(Erp1) != ErpKey(Erp3) && ErpKey(Erp2) != ErpKey(Erp3)
  {
    assert ErpKey(Erp1)[13] == '1' && ErpKey(Erp2)[13] == '2' && ErpKey(Erp3)[13] == '3';
  }

  /** Three compared items of which the first two differ: rejected, one
      approved and two for review. */
  lemma SummarizeTwoOfThree(c1: ItemComparison, c2: ItemComparison, c3: ItemComparison)
    requires HasDiscrepancy(c1) && HasDiscrepancy(c2) && !HasDiscrepancy(c3)
    ensures Summarize([c1, c2, c3], [], []) == Report(Rejected, [c1, c2, c3], 3, 1, 2, [], [])
  {
    var items := [c1, c2, c3];
    assert items[1..] == [c2, c3] && [c2, c3][1..] == [c3] && [c3][1..] == [];
    assert [c3][0] == c3 && CountApproved([]) == 0 && CountReview([]) == 0;
    assert CountApproved([c3]) == 1;
    assert CountReview([c3]) == 0;
    assert CountApproved([c2, c3]) == 1 && CountReview([c2, c3]) == 1;
    assert CountApproved(items) == 1 && CountReview(items) == 2;
    assert !(forall i :: 0 <= i < |items| ==> !HasDiscrepancy(items[i])) by {
      assert HasDiscrepancy(items[0]);
    }
  }

  /** ITEM001 is three short in `book_actual`, ITEM002 five over in
      `book_bulk`, and ITEM003 agrees. */
  lemma SeedComparisons()
    ensures Compared(Stock1, Erp1) == ItemComparison("TXN001", "ITEM001", 0, -3, "Y")
    ensures Compared(Stock2, Erp2) == ItemComparison("TXN001", "ITEM002", 5, 0, "Y")
    ensures Compared(Stock3, Erp3) == ItemComparison("TXN001", "ITEM003", 0, 0, "N")
  {
  }

  /** Transaction TXN001 as the two backends hold it is rejected, with one
      item approved and two for review; every key is on both sides. (The two
      lists are what the backends' lookups return for TXN001.) */
  lemma SeedTransactionRejected()
    ensures Reconcile([Stock1, Stock2, Stock3], [Erp1, Erp2, Erp3])
         == Report(Rejected, [Compared(Stock1, Erp1), Compared(Stock2, Erp2), Compared(Stock3, Erp3)],
                   3, 1, 2, [], [])
  {
    SeedKeys();
    ThreeMatched(Stock1, Stock2, Stock3, Erp1, Erp2, Erp3);
    SeedComparisons();
    SummarizeTwoOfThree(Compared(Stock1, Erp1), Compared(Stock2, Erp2), Compared(Stock3, Erp3));
  }
}
