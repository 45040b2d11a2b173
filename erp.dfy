/** The ERP mock backend: the system-of-record quantities for the same line
    items the stock count holds, looked up per transaction. ERP records carry
    no review flag. */
module Erp {
  import opened Wrappers
  import opened Text
  import Tables
  import StockCount

  /** One ERP line item (the stock-count fields without `is_review_yn`). */
  datatype ErpItem = ErpItem(
    transactionId: string,
    itemCode: string,
    itemDesc: string,
    bookBulk: int,
    bookActual: int,
    floatBook: int,
    floatActual: int)

  datatype ErpResponse = ErpResponse(
    status: string,
    message: string,
    data: Option<seq<ErpItem>>,
    totalItems: nat)

  function TransactionIdOf(item: ErpItem): string {
    item.transactionId
  }

  /** The record as the table stores it: seven fields, and no review flag. */
  function AsRow(item: ErpItem): (row: map<string, string>)
    ensures row.Keys == {"transaction_id", "item_code", "item_desc", "book_bulk",
                         "book_actual", "float_book", "float_actual"}
    ensures "is_review_yn" !in row
  {
    map["transaction_id" := item.transactionId, "item_code" := item.itemCode,
        "item_desc" := item.itemDesc, "book_bulk" := IntToString(item.bookBulk),
        "book_actual" := IntToString(item.bookActual), "float_book" := IntToString(item.floatBook),
        "float_actual" := IntToString(item.floatActual)]
  }

  const MissingIdMessage := "Please provide a valid transaction ID."
  const NotFoundMessage := "ERP details not found for the given transaction ID"

  function FoundMessage(count: nat, transactionId: string): string {
    "Found " + NatToString(count) + " ERP records for transaction " + transactionId
  }

  // The seed records, in the order the constructor appends them.
  const Erp1 := ErpItem("TXN001", "ITEM001", "Chicken Biryani", 100, 98, 50, 49)
  const Erp2 := ErpItem("TXN001", "ITEM002", "Vegetable Curry", 70, 72, 30, 28)
  const Erp3 := ErpItem("TXN001", "ITEM003", "Rice Pilaf", 120, 118, 60, 59)
  const Erp4 := ErpItem("TXN002", "ITEM004", "Naan Bread", 200, 198, 100, 99)
  const Erp5 := ErpItem("TXN002", "ITEM005", "Fruit Salad", 80, 79, 40, 39)
  const Erp6 := ErpItem("TXN003", "ITEM006", "Beef Steak", 60, 59, 25, 24)
  const Erp7 := ErpItem("TXN004", "ITEM007", "Fish Curry", 90, 88, 45, 44)
  const Erp8 := ErpItem("TXN004", "ITEM008", "Dal Makhani", 110, 109, 55, 54)
  const Erp9 := ErpItem("TXN004", "ITEM009", "Raita", 150, 148, 75, 74)
  const Erp10 := ErpItem("TXN005", "ITEM010", "Paneer Tikka", 70, 69, 35, 34)
  const Erp11 := ErpItem("TXN005", "ITEM011", "Mixed Vegetables", 85, 84, 42, 41)

  /** The table the constructor builds: eleven records. */
  function SeedTable(): (table: seq<ErpItem>)
    ensures |table| == 11
  {
    [Erp1, Erp2, Erp3, Erp4, Erp5, Erp6, Erp7, Erp8, Erp9, Erp10, Erp11]
  }

  class ErpModule {
    var erpList: seq<ErpItem>

    constructor ()
      ensures erpList == SeedTable()
    {
      erpList := [];
      erpList := erpList + [Erp1];
      erpList := erpList + [Erp2];
      erpList := erpList + [Erp3];
      erpList := erpList + [Erp4];
      erpList := erpList + [Erp5];
      erpList := erpList + [Erp6];
      erpList := erpList + [Erp7];
      erpList := erpList + [Erp8];
      erpList := erpList + [Erp9];
      erpList := erpList + [Erp10];
      erpList := erpList + [Erp11];
    }

    /** All ERP records of one transaction, in table order, with the same
        error cases as the stock-count lookup. The table is only read. */
    method GetErpDetails(transactionId: string) returns (r: ErpResponse)
      ensures transactionId == "" ==> r == ErpResponse("error", MissingIdMessage, None, 0)
      ensures transactionId != "" ==>
                var found := Tables.Matching(erpList, TransactionIdOf, transactionId);
                r == if found == [] then ErpResponse("error", NotFoundMessage, None, 0)
                     else ErpResponse("success", FoundMessage(|found|, transactionId), Some(found), |found|)
      ensures r.status == "success" <==> r.data.Some?
      ensures r.data.Some? ==> |r.data.value| == r.totalItems >= 1
      ensures r.data.Some? ==> forall item :: item in r.data.value ==>
                                  item in erpList && item.transactionId == transactionId
      ensures r.data.None? ==> r.totalItems == 0
    {
      if transactionId == "" {
        return ErpResponse("error", MissingIdMessage, None, 0);
      }
      var matchingRecords: seq<ErpItem> := [];
      for i := 0 to |erpList|
        invariant matchingRecords == Tables.Matching(erpList[..i], TransactionIdOf, transactionId)
      {
        Tables.MatchingSnoc(erpList, i, TransactionIdOf, transactionId);
        if erpList[i].transactionId == transactionId {
          matchingRecords := matchingRecords + [erpList[i]];
        }
      }
      assert erpList[..|erpList|] == erpList;
      if |matchingRecords| == 0 {
        return ErpResponse("error", NotFoundMessage, None, 0);
      }
      return ErpResponse("success", FoundMessage(|matchingRecords|, transactionId),
                         Some(matchingRecords), |matchingRecords|);
    }
  }

  /** The ERP seed table lists the same (transaction id, item code) pairs as
      the stock-count seed table, in the same order. */
  lemma SeedKeysAgree()
    ensures |SeedTable()| == |StockCount.SeedTable()|
    ensures forall i :: 0 <= i < |SeedTable()| ==>
              SeedTable()[i].transactionId == StockCount.SeedTable()[i].transactionId
              && SeedTable()[i].itemCode == StockCount.SeedTable()[i].itemCode
  {
    SeedKeysAgreeFrom0();
    SeedKeysAgreeFrom3();
    SeedKeysAgreeFrom6();
    SeedKeysAgreeFrom9();
  }

  lemma SeedKeysAgreeFrom0()
    ensures forall i :: 0 <= i < 3 ==>
              SeedTable()[i].transactionId == StockCount.SeedTable()[i].transactionId
              && SeedTable()[i].itemCode == StockCount.SeedTable()[i].itemCode
  {
    var erp, stock := SeedTable(), StockCount.SeedTable();
    assert erp[0] == Erp1 && stock[0] == StockCount.Stock1;
    assert erp[1] == Erp2 && stock[1] == StockCount.Stock2;
    assert erp[2] == Erp3 && stock[2] == StockCount.Stock3;
  }

  lemma SeedKeysAgreeFrom3()
    ensures forall i :: 3 <= i < 6 ==>
              SeedTable()[i].transactionId == StockCount.SeedTable()[i].transactionId
              && SeedTable()[i].itemCode == StockCount.SeedTable()[i].itemCode
  {
    var erp, stock := SeedTable(), StockCount.SeedTable();
    assert erp[3] == Erp4 && stock[3] == StockCount.Stock4;
    assert erp[4] == Erp5 && stock[4] == StockCount.Stock5;
    assert erp[5] == Erp6 && stock[5] == StockCount.Stock6;
  }

  lemma SeedKeysAgreeFrom6()
    ensures forall i :: 6 <= i < 9 ==>
              SeedTable()[i].transactionId == StockCount.SeedTable()[i].transactionId
              && SeedTable()[i].itemCode == StockCount.SeedTable()[i].itemCode
  {
    var erp, stock := SeedTable(), StockCount.SeedTable();
    assert erp[6] == Erp7 && stock[6] == StockCount.Stock7;
    assert erp[7] == Erp8 && stock[7] == StockCount.Stock8;
    assert erp[8] == Erp9 && stock[8] == StockCount.Stock9;
  }

  lemma SeedKeysAgreeFrom9()
    ensures forall i :: 9 <= i < 11 ==>
              SeedTable()[i].transactionId == StockCount.SeedTable()[i].transactionId
              && SeedTable()[i].itemCode == StockCount.SeedTable()[i].itemCode
  {
    var erp, stock := SeedTable(), StockCount.SeedTable();
    assert erp[9] == Erp10 && stock[9] == StockCount.Stock10;
    assert erp[10] == Erp11 && stock[10] == StockCount.Stock11;
  }

  /** Looking up TXN001 in the ERP seed table finds its three records, in order. */
  lemma SeedTransaction001()
    ensures Tables.Matching(SeedTable(), TransactionIdOf, "TXN001") == [Erp1, Erp2, Erp3]
  {
    var rest := [Erp4, Erp5, Erp6, Erp7, Erp8, Erp9, Erp10, Erp11];
    assert SeedTable() == [Erp1, Erp2, Erp3] + rest;
    Tables.MatchingConcat([Erp1, Erp2, Erp3], rest, TransactionIdOf, "TXN001");
    FirstThreeMatch();
    OthersDoNotMatch(rest);
  }

  lemma FirstThreeMatch()
    ensures Tables.Matching([Erp1, Erp2, Erp3], TransactionIdOf, "TXN001") == [Erp1, Erp2, Erp3]
  {
    assert [Erp3][1..] == [];
    assert Tables.Matching([Erp3], TransactionIdOf, "TXN001") == [Erp3];
    assert [Erp2, Erp3][1..] == [Erp3];
    assert Tables.Matching([Erp2, Erp3], TransactionIdOf, "TXN001") == [Erp2, Erp3];
    assert [Erp1, Erp2, Erp3][1..] == [Erp2, Erp3];
  }

  lemma OthersDoNotMatch(rest: seq<ErpItem>)
    requires rest == [Erp4, Erp5, Erp6, Erp7, Erp8, Erp9, Erp10, Erp11]
    ensures Tables.Matching(rest, TransactionIdOf, "TXN001") == []
  {
    assert forall k :: 0 <= k < |rest| ==> |rest[k].transactionId| == 6 && rest[k].transactionId[5] != "TXN001"[5];
    Tables.MatchingEmptyIff(rest, TransactionIdOf, "TXN001");
  }
}
