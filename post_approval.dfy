/** The post-approval export rule: the ERP data of a transaction is written
    to a `post_approval_<timestamp>.txt` table only when the reconciliation
    approved it; a rejected transaction is reported and nothing is written. */
module PostApproval {
  import opened Text
  import opened StockCount
  import opened Erp
  import opened ExportText
  import opened Reconciliation

  const RejectedMessage := "Transaction was rejected. No post-approval export performed."

  /** What the step does: nothing but report, or call the exporter. */
  datatype PostApprovalResult = Skipped(message: string) | Performed(outcome: ExportOutcome)

  /** ERP records as the exporter receives them: a list of dicts. */
  function ErpPayload(items: seq<ErpItem>): (p: Payload)
    ensures p.ItemList? && |p.items| == |items|
    ensures forall i :: 0 <= i < |items| ==> p.items[i] == Record(Erp.AsRow(items[i]))
  {
    ItemList(seq(|items|, i requires 0 <= i < |items| => Record(Erp.AsRow(items[i]))))
  }

  /** The step: export with the post-approval name when approved, skip with
      the rejection message otherwise. */
  ghost function PostApprovalExport(status: Status, data: Payload, timestamp: string): PostApprovalResult {
    if status == Rejected then Skipped(RejectedMessage)
    else Performed(Export(data, PostApprovalFilename(timestamp), timestamp))
  }

  /** The exporter is called exactly when the status is APPROVED, and a file it
      writes has the post-approval name, which ends in `.txt`. */
  lemma ExportOnlyWhenApproved(status: Status, data: Payload, timestamp: string)
    ensures PostApprovalExport(status, data, timestamp).Performed? <==> status == Approved
    ensures PostApprovalExport(status, data, timestamp).Skipped? ==>
              PostApprovalExport(status, data, timestamp).message == RejectedMessage
    ensures PostApprovalExport(status, data, timestamp).Performed? ==>
              var outcome := PostApprovalExport(status, data, timestamp).outcome;
              outcome.Exported? ==>
                outcome.filename == PostApprovalFilename(timestamp)
                && StartsWith(outcome.filename, "post_approval_") && EndsWith(outcome.filename, ".txt")
  {
    GeneratedNames("", timestamp, timestamp);
    ExportCases(data, PostApprovalFilename(timestamp), timestamp);
  }

  /** After a reconciliation, the export happens exactly when every matched
      stock count item agrees with ERP in `book_bulk` and `book_actual`. */
  lemma ExportAfterReconcile(stock: seq<StockCountItem>, erp: seq<ErpItem>, timestamp: string)
    ensures PostApprovalExport(Reconcile(stock, erp).status, ErpPayload(erp), timestamp).Performed?
        <==> BooksAgree(stock, ErpIndex(erp))
  {
    ApprovedIff(stock, erp);
  }

  /** An approved transaction with ERP records writes their table: one line
      per record below the header and the dashes. */
  lemma ApprovedErpDataIsWritten(erp: seq<ErpItem>, timestamp: string)
    requires erp != []
    ensures PostApprovalExport(Approved, ErpPayload(erp), timestamp)
         == Performed(Exported(PostApprovalFilename(timestamp), Layout(Rows(ErpPayload(erp).items))))
  {
    var data := ErpPayload(erp);
    assert AllRecords(data.items);
    assert data.items[0].fields != map[] by {
      assert "transaction_id" in Erp.AsRow(erp[0]);
    }
    ExportWhenWellFormed(data, PostApprovalFilename(timestamp), timestamp, data.items);
    GeneratedNames("", timestamp, timestamp);
  }

  /** Transaction TXN001 is rejected, so nothing is exported for it. */
  lemma SeedTransactionNotExported(data: Payload, timestamp: string)
    ensures PostApprovalExport(Reconcile([Stock1, Stock2, Stock3], [Erp1, Erp2, Erp3]).status, data, timestamp)
         == Skipped(RejectedMessage)
  {
    SeedTransactionRejected();
  }
}
