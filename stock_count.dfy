/** The stock-count mock backend: a table of counted items per transaction
    and a lookup that returns every item of one transaction. */
module StockCount {
  import opened Wrappers
  import opened Text
  import Tables

  /** One counted line item. */
  datatype StockCountItem = StockCountItem(
    transactionId: string,
    itemCode: string,
    itemDesc: string,
    bookBulk: int,
    bookActual: int,
    floatBook: int,
    floatActual: int,
    isReviewYn: string)

  /** The lookup's answer: a status word, a message, the items found (None on
      error) and how many there are. */
  datatype StockCountResponse = StockCountResponse(
    status: string,
    message: string,
    data: Option<seq<StockCountItem>>,
    totalItems: nat)

  function TransactionIdOf(item: StockCountItem): string {
    item.transactionId
  }

  /** The record as the table stores it: a dict from field name to value,
      with the integer fields written as Python's `str` writes them. */
  function AsRow(item: StockCountItem): (row: map<string, string>)
    ensures row.Keys == {"transaction_id", "item_code", "item_desc", "book_bulk",
                         "book_actual", "float_book", "float_actual", "is_review_yn"}
  {
    map["transaction_id" := item.transactionId, "item_code" := item.itemCode,
        "item_desc" := item.itemDesc, "book_bulk" := IntToString(item.bookBulk),
        "book_actual" := IntToString(item.bookActual), "float_book" := IntToString(item.floatBook),
        "float_actual" := IntToString(item.floatActual), "is_review_yn" := item.isReviewYn]
  }

  const MissingIdMessage := "Please provide a valid transaction ID."
  const NotFoundMessage := "Stock count details not found for the given transaction ID"

  function FoundMessage(count: nat, transactionId: string): string {
    "Found " + NatToString(count) + " stock count records for transaction " + transactionId
  }

  // The seed records, in the order the constructor appends them.
  const Stock1 := StockCountItem("TXN001", "ITEM001", "Chicken Biryani", 100, 95, 50, 48, "N")
  const Stock2 := StockCountItem("TXN001", "ITEM002", "Vegetable Curry", 75, 72, 30, 29, "N")
  const Stock3 := StockCountItem("TXN001", "ITEM003", "Rice Pilaf", 120, 118, 60, 58, "N")
  const Stock4 := StockCountItem("TXN002", "ITEM004", "Naan Bread", 200, 195, 100, 97, "N")
  const Stock5 := StockCountItem("TXN002", "ITEM005", "Fruit Salad", 80, 78, 40, 39, "N")
  const Stock6 := StockCountItem("TXN003", "ITEM006", "Beef Steak", 60, 58, 25, 24, "N")
  const Stock7 := StockCountItem("TXN004", "ITEM007", "Fish Curry", 90, 87, 45, 43, "N")
  const Stock8 := StockCountItem("TXN004", "ITEM008", "Dal Makhani", 110, 108, 55, 53, "N")
  const Stock9 := StockCountItem("TXN004", "ITEM009", "Raita", 150, 147, 75, 73, "N")
  const Stock10 := StockCountItem("TXN005", "ITEM010", "Paneer Tikka", 70, 68, 35, 34, "N")
  const Stock11 := StockCountItem("TXN005", "ITEM011", "Mixed Vegetables", 85, 83, 42, 41, "N")

  /** The table the constructor builds: eleven records. */
  function SeedTable(): (table: seq<StockCountItem>)
    ensures |table| == 11
  {
    [Stock1, Stock2, Stock3, Stock4, Stock5, Stock6, Stock7, Stock8, Stock9, Stock10, Stock11]
  }

  /** The seed records belong to five transactions, and none of them is
      flagged for review. */
  lemma SeedTableShape()
    ensures forall item :: item in SeedTable() ==> item.isReviewYn == "N"
    ensures forall item :: item in SeedTable() ==>
              item.transactionId in {"TXN001", "TXN002", "TXN003", "TXN004", "TXN005"}
  {
  }

  class StockCountModule {
    var stockCountList: seq<StockCountItem>

    constructor ()
      ensures stockCountList == SeedTable()
    {
      stockCountList := [];
      stockCountList := stockCountList + [Stock1];
      stockCountList := stockCountList + [Stock2];
      stockCountList := stockCountList + [Stock3];
      stockCountList := stockCountList + [Stock4];
      stockCountList := stockCountList + [Stock5];
      stockCountList := stockCountList + [Stock6];
      stockCountList := stockCountList + [Stock7];
      stockCountList := stockCountList + [Stock8];
      stockCountList := stockCountList + [Stock9];
      stockCountList := stockCountList + [Stock10];
      stockCountList := stockCountList + [Stock11];
    }

    /** All records of one transaction, in table order. An empty id and an id
        with no records are both errors with no data and a count of 0; on
        success the count is the number of records returned. The table is
        only read. */
    method GetStockCountDetails(transactionId: string) returns (r: StockCountResponse)
      ensures transactionId == "" ==> r == StockCountResponse("error", MissingIdMessage, None, 0)
      ensures transactionId != "" ==>
                var found := Tables.Matching(stockCountList, TransactionIdOf, transactionId);
                r == if found == [] then StockCountResponse("error", NotFoundMessage, None, 0)
                     else StockCountResponse("success", FoundMessage(|found|, transactionId), Some(found), |found|)
      ensures r.status == "success" <==> r.data.Some?
      ensures r.data.Some? ==> |r.data.value| == r.totalItems >= 1
      ensures r.data.Some? ==> forall item :: item in r.data.value ==>
                                  item in stockCountList && item.transactionId == transactionId
      ensures r.data.None? ==> r.totalItems == 0
    {
      if transactionId == "" {
        return StockCountResponse("error", MissingIdMessage, None, 0);
      }
      var matchingRecords: seq<StockCountItem> := [];
      for i := 0 to |stockCountList|
        invariant matchingRecords == Tables.Matching(stockCountList[..i], TransactionIdOf, transactionId)
      {
        Tables.MatchingSnoc(stockCountList, i, TransactionIdOf, transactionId);
        if stockCountList[i].transactionId == transactionId {
          matchingRecords := matchingRecords + [stockCountList[i]];
        }
      }
      assert stockCountList[..|stockCountList|] == stockCountList;
      if |matchingRecords| == 0 {
        return StockCountResponse("error", NotFoundMessage, None, 0);
      }
      return StockCountResponse("success", FoundMessage(|matchingRecords|, transactionId),
                                Some(matchingRecords), |matchingRecords|);
    }
  }

  /** Looking up TXN001 in the seed table finds its three records, in order. */
  lemma SeedTransaction001()
    ensures Tables.Matching(SeedTable(), TransactionIdOf, "TXN001") == [Stock1, Stock2, Stock3]
  {
    var rest := [Stock4, Stock5, Stock6, Stock7, Stock8, Stock9, Stock10, Stock11];
    assert SeedTable() == [Stock1, Stock2, Stock3] + rest;
    Tables.MatchingConcat([Stock1, Stock2, Stock3], rest, TransactionIdOf, "TXN001");
    FirstThreeMatch();
    OthersDoNotMatch(rest);
  }

  lemma FirstThreeMatch()
    ensures Tables.Matching([Stock1, Stock2, Stock3], TransactionIdOf, "TXN001") == [Stock1, Stock2, Stock3]
  {
    assert [Stock3][1..] == [];
    assert Tables.Matching([Stock3], TransactionIdOf, "TXN001") == [Stock3];
    assert [Stock2, Stock3][1..] == [Stock3];
    assert Tables.Matching([Stock2, Stock3], TransactionIdOf, "TXN001") == [Stock2, Stock3];
    assert [Stock1, Stock2, Stock3][1..] == [Stock2, Stock3];
  }

  lemma OthersDoNotMatch(rest: seq<StockCountItem>)
    requires rest == [Stock4, Stock5, Stock6, Stock7, Stock8, Stock9, Stock10, Stock11]
    ensures Tables.Matching(rest, TransactionIdOf, "TXN001") == []
  {
    assert forall k :: 0 <= k < |rest| ==> |rest[k].transactionId| == 6 && rest[k].transactionId[5] != "TXN001"[5];
    Tables.MatchingEmptyIff(rest, TransactionIdOf, "TXN001");
  }
}
