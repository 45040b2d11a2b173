# Catering agents: a verified model of the deterministic core

The repository is a set of airline-catering assistants built on an LLM agent
framework. Most of it is prompt text and agent wiring. Underneath sit a few
deterministic pieces, and this project models them in Dafny and proves what
they promise:

- **Mock backends.** Four in-memory tables, each with a query method:
  - stock counts and ERP records, where the query returns every record of a transaction in a status/message/data/total response;
  - flights, where the query returns the first record matching a flight number, and also the date when one is given;
  - meal orders, where the query returns the first order matching a master flight id.

  Each is a `class` with a `seq` field. Its constructor appends the seed records, and its lookup is a loop proved against a filter or first-match specification.
- **The text exporter.** `export_to_text` validates its input and picks the file name. The `.txt` extension is appended when missing. The table layout works like this:
  - the columns are the sorted union of the keys;
  - each column is as wide as its longest cell or its name;
  - cells are left-justified and joined with `" | "`;
  - a line of dashes follows the header.

  The export methods compute all of this with loops and are proved equal to a reference function. Lemmas about that function give the layout's shape: every line has the same length, the separator is only dashes, and there are `2 + rows` lines. The three filename wrappers are modelled too.
- **Knowledge queries.** There are three pieces:
  - `decompose_query`: the seven case-insensitive separator splits are modelled exactly, as is the head-first assembly truncated to five queries;
  - the order-preserving de-duplication of `get_knowledge_context`;
  - the result shapes of `rerank_documents`.
- **Agent instructions.** `get_agent_instructions` looks a key up in the prompt table and raises `ValueError` for an unknown key. Otherwise it calls `str.format` on the prompt, which raises `KeyError` for a missing keyword. The builder's sequence of lookups is modelled on top of it.
- **Rules stated only as prompt text.** No code implements these; the LLM carries the rules out. They are modelled as pure functions over the two record shapes:
  - the stock-count/ERP reconciliation: items are keyed by `transaction_id_item_code`, only `book_bulk` and `book_actual` are compared, the result is APPROVED iff no difference, and counts and missing keys are reported;
  - the post-approval export, which happens only when the transaction was APPROVED;
  - the meal-eligibility checks, applied in order.

Today's date and the export timestamp are parameters. Cell values are already strings.

## Model

| member | source | states |
|---|---|---|
| StockCount.SeedTable | modules/stock_count_module.py:24-162 | the seed table has eleven records |
| StockCount.SeedTableShape | modules/stock_count_module.py:24-162 | the seed records belong to TXN001 to TXN005, and none is flagged for review |
| StockCount.StockCountModule.constructor | modules/stock_count_module.py:21-162 | the constructor leaves exactly the seed table in `stockCountList` |
| StockCount.StockCountModule.GetStockCountDetails | modules/stock_count_module.py:164-196 | an empty id is an error with no data and count 0; otherwise the data is exactly the table's records of that id in table order; no match is an error with count 0; on success the count equals the data's length and is at least 1, and every item is a table record of the queried id |
| StockCount.SeedTransaction001 | modules/stock_count_module.py:25-58 | TXN001's records in the seed table are the first three, in order |
| Erp.SeedTable | modules/erp_module.py:23-150 | the ERP seed table has eleven records |
| Erp.ErpModule.constructor | modules/erp_module.py:20-150 | the constructor leaves exactly the seed table in `erpList` |
| Erp.ErpModule.GetErpDetails | modules/erp_module.py:152-184 | the same error cases as the stock-count lookup; on success, exactly the ERP records of the id in table order, with their count |
| Erp.SeedKeysAgree | modules/erp_module.py:21-150 | the ERP seed table lists the same (transaction id, item code) pairs as the stock-count seed, position by position |
| Erp.SeedTransaction001 | modules/erp_module.py:24-54 | TXN001's ERP records are the first three, in order |
| Tables.Matching | modules/stock_count_module.py:175-178 | the filter keeps only records of the table whose transaction id is the one asked for |
| Tables.MatchingComplete | modules/stock_count_module.py:175-178 | every record whose transaction id is the one asked for is kept |
| Tables.MatchingConcat | modules/stock_count_module.py:176-178 | filtering two tables in a row gives the first table's matches then the second's, so table order is kept |
| Tables.MatchingEmptyIff | modules/stock_count_module.py:181 | the filter is empty iff no record of the table has the id |
| Tables.MatchingIdempotent | modules/erp_module.py:163-166 | filtering a filtered table again changes nothing |
| Flights.SeedFlights | modules/flight_module.py:3-9 | the seed list has three flights |
| Flights.FlightModule.constructor | modules/flight_module.py:2-9 | the constructor leaves exactly the three seed flights in `flightList` |
| Flights.FlightModule.GetFlightDetails | modules/flight_module.py:11-23 | an empty flight number gives "Please provide flightNo"; otherwise the result is "Flight details not found" iff no record answers the query; a returned record is the first one that answers, where answering means the number matches and, if a date was given, the date matches too |
| Flights.LookUpSeededEK0203 | modules/flight_module.py:5 | EK0203 on 20-Jan-2024 is the second seed flight, with master flight id 2 |
| MealOrders.SeedOrders | modules/meal_order_module.py:3-9 | the seed list has three orders, with ids 1, 2 and 4 |
| MealOrders.MealOrderModule.constructor | modules/meal_order_module.py:2-9 | the constructor leaves exactly the seed orders in its list |
| MealOrders.MealOrderModule.GetMealOrderDetails | modules/meal_order_module.py:11-20 | id 0 gives "Please provide mflId"; otherwise the result is "Meal order details not found" iff no order has the id; a returned order is the first with the id |
| MealOrders.LookUpSeededOrders | modules/meal_order_module.py:4-20 | id 2 finds the second seed order (55 economy meals); id 3 finds nothing |
| ExportText.Rows | modules/export_excel_module.py:46-47 | a list of dict items gives one row per item, with that item's fields |
| ExportText.EnsureTxt | modules/export_excel_module.py:38-39 | the name ends in `.txt`, starts with the given name, and is unchanged when it already ends in `.txt` |
| ExportText.EnsureTxtIdempotent | modules/export_excel_module.py:38-39 | applying the `.txt` rule twice is applying it once |
| ExportText.AllKeysMembers | modules/export_excel_module.py:45-47 | a key is collected iff some row has it |
| ExportText.Columns | modules/export_excel_module.py:45-48 | the columns are strictly sorted, so each key appears once, and they are exactly the collected keys |
| ExportText.WidthIsMaximum | modules/export_excel_module.py:51-55 | a column's width is at least its name's length and each of its cells' lengths, and equals one of them |
| ExportText.WidthMap | modules/export_excel_module.py:51-55 | there is a width for exactly the listed columns |
| ExportText.MissingKeyIsBlank | modules/export_excel_module.py:69 | a key the row lacks is rendered as a run of spaces as wide as its column |
| ExportText.SeparatorLine | modules/export_excel_module.py:64 | the separator is as long as the header and consists only of dashes |
| ExportText.HeaderLineLength | modules/export_excel_module.py:60 | the header is as long as the sum of the widths plus three per column gap |
| ExportText.RowLineLength | modules/export_excel_module.py:69 | every data row has that same length |
| ExportText.LayoutSeparator | modules/export_excel_module.py:59-65 | the file has a header and a separator line of dashes as long as the header |
| ExportText.LayoutShape | modules/export_excel_module.py:59-70 | with at least one column, the file has `2 + rows` lines, all of the table's width |
| ExportText.Layout | modules/export_excel_module.py:44-70 | the file's lines: the header of the sorted keys, each padded to its column's width and joined with the column separator, then a line of dashes, then one padded line per row with blanks for missing keys |
| ExportText.Export | modules/export_excel_module.py:20-75 | the exporter's outcome: a single dict is wrapped; no data or a non-list gives the format refusal, an empty or non-dict first item the item refusal; a later non-dict item gives the error reply; otherwise the lines are written under the resolved `.txt` name |
| ExportText.ExportCases | modules/export_excel_module.py:20-39 | a single dict is exported as a one-row list; no data, an empty list or a non-list is refused with the format message; an empty or non-dict first item is refused with the item message; otherwise the data is exported, under a name ending in `.txt` |
| ExportText.ExportedShape | modules/export_excel_module.py:44-70 | an exported file is the layout of the data's rows: `2 + rows` equal-length lines |
| ExportText.ExportWhenWellFormed | modules/export_excel_module.py:26-70 | non-empty dict rows with a non-empty first row are exported under the resolved name, with their layout |
| ExportText.SortKeys | modules/export_excel_module.py:48 | sorting the key set gives its unique strictly ascending listing |
| ExportText.CollectKeys | modules/export_excel_module.py:45-47 | the loop fails iff some item is not a dict; otherwise it yields the union of the rows' keys |
| ExportText.WidenColumn | modules/export_excel_module.py:53-55 | the loop computes the column's width |
| ExportText.ColumnWidths | modules/export_excel_module.py:51-55 | the nested loop computes the width of every column |
| ExportText.RenderLines | modules/export_excel_module.py:58-70 | the header, the separator and one line per row, in that order |
| ExportText.ExportToText | modules/export_excel_module.py:9-75 | for every input, the exporter's outcome is the one the reference function `Export` gives |
| ExportText.GeneratedNames | modules/export_excel_module.py:90-93 | the generated names start with `stock_count_<id>_` (or `stock_count_` with no id), `pre_approval_` or `post_approval_`, and the `.txt` rule leaves them as they are |
| ExportText.ExportStockCountToText | modules/export_excel_module.py:77-95 | exports under the stock-count name, and an export happens under exactly that name |
| ExportText.ExportPreApprovalData | modules/export_excel_module.py:100-115 | exports under the pre-approval name |
| ExportText.ExportPostApprovalData | modules/export_excel_module.py:120-135 | exports under the post-approval name |
| Knowledge.SplitPatternsWellFormed | modules/knowledge_module.py:57-60 | the seven split patterns are lower-case words or single non-space marks |
| Knowledge.NextMatch | modules/knowledge_module.py:64 | the leftmost match of a pattern at or after a position, or none iff there is none |
| Knowledge.Split | modules/knowledge_module.py:64 | `re.split` on one pattern, ignoring case: the pieces of the text between its leftmost non-overlapping matches |
| Knowledge.SplitRoundTrip | modules/knowledge_module.py:64 | joining a split's parts back with the matched separators gives the original text |
| Knowledge.MarkNotInParts | modules/knowledge_module.py:59 | after splitting at a punctuation mark, no part contains that mark |
| Knowledge.SplitBlank | modules/knowledge_module.py:64-65 | a blank text does not split |
| Knowledge.SplitHeadPrefix | modules/knowledge_module.py:66 | the first part is a prefix of the text split |
| Knowledge.StrippedNonBlankClean | modules/knowledge_module.py:67 | the kept trailing parts are non-empty and stripped |
| Knowledge.StrippedNonBlankKeeps | modules/knowledge_module.py:67 | every part that is not blank is kept, stripped |
| Knowledge.StrippedNonBlankSource | modules/knowledge_module.py:67 | every kept query is a stripped part |
| Knowledge.Decomposition | modules/knowledge_module.py:62-67 | the patterns applied in order: a pattern that splits the current head leaves its first piece as the head and appends the other pieces, stripped, blank ones dropped |
| Knowledge.Decompose | modules/knowledge_module.py:74-78 | the decomposition has at least one and at most five queries |
| Knowledge.DecomposeQuery | modules/knowledge_module.py:48-78 | the loop over the patterns computes the decomposition |
| Knowledge.QueriesClean | modules/knowledge_module.py:63-67 | every collected query is non-empty and stripped |
| Knowledge.HeadShrinks | modules/knowledge_module.py:63-66 | each split applies only to the current head, which stays a prefix of the query |
| Knowledge.QueriesGrow | modules/knowledge_module.py:63-67 | later patterns only append queries; the earlier ones stay in place, in order |
| Knowledge.DecomposeBlank | modules/knowledge_module.py:70-75 | an all-blank query decomposes to itself alone |
| Knowledge.DecomposeClean | modules/knowledge_module.py:62-78 | the result is the query itself or a list of non-empty stripped queries |
| Knowledge.DecomposeHead | modules/knowledge_module.py:70-71 | a non-blank final head comes first, stripped |
| Knowledge.Dedup | modules/knowledge_module.py:139-144 | the first occurrence of each element, in order of first occurrence |
| Knowledge.DedupElements | modules/knowledge_module.py:139-144 | de-duplication keeps exactly the same elements |
| Knowledge.DedupDistinct | modules/knowledge_module.py:139-144 | the de-duplicated list has no repeated element |
| Knowledge.DedupOrder | modules/knowledge_module.py:139-144 | it keeps the elements in order of first occurrence |
| Knowledge.DedupOfDistinct | modules/knowledge_module.py:139-144 | a list without repeats is unchanged |
| Knowledge.DedupIdempotent | modules/knowledge_module.py:139-144 | de-duplicating twice is de-duplicating once |
| Knowledge.DedupPrefix | modules/knowledge_module.py:134-144 | the de-duplicated decomposed queries come first, before anything added from the previous queries |
| Knowledge.RemoveDuplicates | modules/knowledge_module.py:139-144 | the seen-set loop computes the order-preserving de-duplication |
| Knowledge.QueriesToProcess | modules/knowledge_module.py:131-144 | the decomposed queries followed by the previous ones: the result holds each of them once, and nothing else, with the decomposed queries first |
| Knowledge.Rerank | modules/knowledge_module.py:102-123 | no documents gives `("", [])`; every id is a document index; a valid ranking is returned as is; a failed or out-of-range ranking falls back to all documents joined, with ids 0 to n-1 |
| Knowledge.RankedTextLength | modules/knowledge_module.py:116-118 | the ranked text is the chosen documents' lengths plus one blank-line gap each |
| Knowledge.RerankDocuments | modules/knowledge_module.py:102-123 | the loop computes the rerank result |
| AgentInstructions.Format | app/agent_instructions.py:780 | `str.format` on a template: placeholders replaced left to right by their keywords' values; the first placeholder without a keyword raises `KeyError` naming it |
| AgentInstructions.FormatOkIff | app/agent_instructions.py:780 | formatting succeeds iff every placeholder has a keyword, and it can only fail with `KeyError` |
| AgentInstructions.FormatFirstMissing | app/agent_instructions.py:780 | a failed format names the first placeholder that has no keyword |
| AgentInstructions.FormatIgnoresOtherKeys | app/agent_instructions.py:780 | keywords with no placeholder do not change the result |
| AgentInstructions.FormatPlain | app/agent_instructions.py:780 | a template with no placeholder formats to its own text |
| AgentInstructions.FormatConcat | app/agent_instructions.py:780 | formatting two templates in a row is formatting each in turn, and fails at the first failure |
| AgentInstructions.TemplateOf | app/agent_instructions.py:8-776 | the `instructions` dict as a lookup: the template stored under a key, or none for a key the dict does not hold |
| AgentInstructions.TableShape | app/agent_instructions.py:8-774 | a key has a template iff it is in the table; the root agent's template has the five profile placeholders and every other template has none |
| AgentInstructions.GetAgentInstructions | app/agent_instructions.py:776-777 | an unknown agent type raises `ValueError("Unknown agent type: …")` |
| AgentInstructions.GetAgentInstructionsOkIff | app/agent_instructions.py:776-780 | the call succeeds iff the key is known and every placeholder of its template has a keyword; a known key fails only with `KeyError` |
| AgentInstructions.PlainAgentsNeedNoKeywords | app/agent_instructions.py:72-770 | a known key other than the root agent's returns its prompt whatever keywords are given |
| AgentInstructions.CateringSubstitution | app/agent_instructions.py:9-38 | the root prompt with the five profile keywords is the prose with each value substituted in place, in order |
| AgentInstructions.CateringNeedsUserName | app/agent_instructions.py:32 | the root prompt without `user_name` raises `KeyError('user_name')` |
| AgentBuilder.Sequence | app/agent_builder.py:12-75 | calls made one after another: the first exception ends the run and is what it raises; otherwise every call's value, in order |
| AgentBuilder.SequenceOkIff | app/agent_builder.py:12-75 | a run of calls succeeds iff every call does, and then it yields each call's value in order |
| AgentBuilder.SequenceFirstError | app/agent_builder.py:12-75 | a failed run raises the error of its first failing call |
| AgentBuilder.SequenceStopsAt | app/agent_builder.py:12-75 | a call that fails after calls that all succeeded is the run's error |
| AgentBuilder.SequenceConcat | app/agent_builder.py:12-75 | two runs back to back stop at the first error, or yield both runs' values |
| AgentBuilder.BuildRootAgent | app/agent_builder.py:16-72 | `build_root_agent`'s prompt lookups: the six sub-agents' keys without keywords, in the builder's order, then the root key with the user profile, run in sequence |
| AgentBuilder.BuildFailsAtUnknownKey | app/agent_builder.py:16-72 | the first unknown key of the builder's lookups raises `ValueError` naming it, whatever the profile |
| AgentBuilder.BuildSucceeds | app/agent_builder.py:16-72 | with only known keys and a complete profile, the build yields every plain prompt in order, then the filled-in root prompt |
| AgentBuilder.BuildAsWrittenFails | app/agent_builder.py:51 | as written, the build raises `ValueError` for "meal_issue_agent", which is not in the table |
| AgentBuilder.BuildCorrectedSucceeds | app/agent_builder.py:48-72 | with the table's meal-support key, the build succeeds with seven prompts, the last being the root prompt filled in with the builder's profile |
| Reconciliation.ErpIndex | app/agent_instructions.py:533 | the ERP items as a dict keyed `transaction_id_item_code`; a later item replaces an earlier one with the same key |
| Reconciliation.Compared | app/agent_instructions.py:535-545 | one matched pair: stock count minus ERP in `book_bulk` and in `book_actual`, flagged "Y" when either differs and "N" otherwise |
| Reconciliation.Compare | app/agent_instructions.py:535-545 | the comparisons of the stock-count items that have an ERP match, in stock-count order |
| Reconciliation.Summarize | app/agent_instructions.py:552-560 | the report: APPROVED iff no compared item differs, REJECTED otherwise, with the numbers compared, approved and for review, and the two missing lists |
| Reconciliation.Reconcile | app/agent_instructions.py:517-560 | the whole rule: index the ERP items by key, compare each matched stock-count item on the two book fields, list the keys found on one side only, and summarize |
| Reconciliation.KeyInjective | app/agent_instructions.py:533 | keys built from ids without an underscore name one (transaction, item) pair |
| Reconciliation.KeysCanCollide | app/agent_instructions.py:533 | keys from ids with an underscore can collide: ("T_1", "X") and ("T", "1_X") |
| Reconciliation.ErpIndexKeys | app/agent_instructions.py:533 | the ERP items are indexed by exactly their keys |
| Reconciliation.ErpIndexLast | app/agent_instructions.py:533 | for a repeated key, the index holds the last ERP item with that key |
| Reconciliation.CompareMembers | app/agent_instructions.py:535-542 | the compared items are exactly the stock-count items with an ERP match, each compared with the ERP item of its key |
| Reconciliation.ReviewFlags | app/agent_instructions.py:545 | an item is flagged "Y" iff it differs from ERP, and "N" otherwise |
| Reconciliation.CountsAddUp | app/agent_instructions.py:555-560 | items approved plus items requiring review is the number compared, and nothing requires review iff no item differs |
| Reconciliation.ReportCounts | app/agent_instructions.py:553-560 | in the report the counts add up, and APPROVED iff no item requires review |
| Reconciliation.NoDiscrepancyIff | app/agent_instructions.py:535-542 | no compared item differs iff every matched pair agrees in `book_bulk` and `book_actual` |
| Reconciliation.ApprovedIff | app/agent_instructions.py:553-554 | the reconciliation is APPROVED iff every matched pair agrees in `book_bulk` and `book_actual` |
| Reconciliation.NoErpDataIsApproved | app/agent_instructions.py:548-555 | with no ERP records nothing is compared, so the result is APPROVED although every stock-count item is reported missing in ERP |
| Reconciliation.NoStockCountIsApproved | app/agent_instructions.py:548-555 | with no stock-count items nothing is compared, so the result is APPROVED although every ERP record is reported missing in the stock count |
| Reconciliation.MissingInErpIff | app/agent_instructions.py:549 | a key is missing in ERP iff a stock-count item has it and the ERP index does not |
| Reconciliation.MissingInStockCountIff | app/agent_instructions.py:550 | a key is missing in the stock count iff an ERP item has it and no stock-count item does |
| Reconciliation.MissingKeys | app/agent_instructions.py:548-550 | in the report, each missing list holds exactly the keys found on one side only |
| Reconciliation.OnlyBooksMatter | app/agent_instructions.py:517-528 | changing `item_desc`, `float_book`, `float_actual` or `is_review_yn` never changes the reconciliation |
| Reconciliation.ThreeMatched | app/agent_instructions.py:533-550 | three stock-count items matched one to one with three distinct ERP keys are compared pairwise, with nothing missing |
| Reconciliation.SeedComparisons | modules/stock_count_module.py:26-58 | TXN001's differences: ITEM001 (0, -3) flagged, ITEM002 (5, 0) flagged, ITEM003 (0, 0) not flagged |
| Reconciliation.SeedTransactionRejected | app/agent_instructions.py:553-560 | the seeded TXN001 is REJECTED: 3 compared, 1 approved, 2 for review, nothing missing |
| PostApproval.ErpPayload | app/agent_instructions.py:646 | the ERP data as a list of dicts, one per record, with that record's fields |
| PostApproval.PostApprovalExport | app/agent_instructions.py:650-653 | a REJECTED transaction is skipped with the rejection message; an APPROVED one calls the exporter with the data and the `post_approval_<timestamp>.txt` name |
| PostApproval.ExportOnlyWhenApproved | app/agent_instructions.py:650-653 | the exporter is called iff the status is APPROVED; a skip reports the rejection message; an exported file has the `post_approval_…txt` name |
| PostApproval.ExportAfterReconcile | app/agent_instructions.py:650-652 | after a reconciliation, the export happens iff every matched pair agrees in `book_bulk` and `book_actual` |
| PostApproval.ApprovedErpDataIsWritten | app/agent_instructions.py:651 | approved, non-empty ERP data is written as its table under the post-approval name |
| PostApproval.SeedTransactionNotExported | app/agent_instructions.py:676-680 | the seeded TXN001 is skipped with "Transaction was rejected. No post-approval export performed." |
| MealSupport.ParseDate | app/agent_instructions.py:253 | reads `DD-MMM-YYYY`: a two-digit day from 1 to 31, a month abbreviation and a four-digit year; any other text is no date |
| MealSupport.Departed | app/agent_instructions.py:252-256 | the flight's date is strictly before today; a date that cannot be read is not departed |
| MealSupport.CheckMealEligibility | app/agent_instructions.py:245-260 | the service-type, departure and finalization checks in that order; the first that fails gives its reply, otherwise the flight is eligible |
| MealSupport.DateRoundTrip | app/agent_instructions.py:253 | reading back a date written DD-MMM-YYYY gives the date again |
| MealSupport.EligibleIff | app/agent_instructions.py:245-260 | a flight is eligible iff its service type is "J", it has not departed and its status is not "FF" |
| MealSupport.MessagesDistinct | app/agent_instructions.py:250-260 | the three refusals are different texts |
| MealSupport.FirstFailingCheckDecides | app/agent_instructions.py:245-260 | each refusal is given exactly when its check is the first that fails |
| MealSupport.DepartedStaysDeparted | app/agent_instructions.py:252-256 | a flight that has departed counts as departed on every later day |
| MealSupport.CargoFlightNeverEligible | modules/flight_module.py:6 | EK0500 (service type "P") is refused as a non-passenger flight on every day |
| MealSupport.FinalizedFlightNeverEligible | modules/flight_module.py:5 | EK0203 of 20-Jan-2024 (status "FF") is never eligible: refused as departed once its date is past, as finalized before |
| MealSupport.OpenFlightEligibleUntilDeparture | modules/flight_module.py:4 | EK0202 of 21-Jan-2024 is eligible iff 21-Jan-2024 is not yet past |
| MealSupport.SeedDates | modules/flight_module.py:4-5 | the seeded passenger flights' dates read as 21 and 20 January 2024 |

## Left out

- Files and clocks: the exporter's file write, `os.getcwd` and `os.path.join` are left out. The timestamp and today's date are parameters. The exporter's outcome is the file name and lines, not the message string that gives the full path.
- Exporter errors: the two validation refusals are returned strings and are modelled with their texts.
  - A non-dict item after the first makes `item.keys()` raise. The handler catches this, and the model records it as the `ExportError` outcome, without the text `"Error exporting data: " + str(e)` that is returned.
  - The exporter's other failures, such as an `OSError` from opening or writing the file, are left out: the model always writes.
- `str()` of arbitrary values is left out; cells are strings already.
- Optional arguments and fields: Python's `None` is modelled as the empty string. This covers `export_to_text`'s `filename`, the stock-count wrapper's `transaction_id` and the flight lookup's `flightDate`. The source tests each of them only with `not x` or a truthiness check, and there `None` and `""` behave alike.
- Vector search is foreign calls and I/O, so these are left out: the embeddings, ChromaDB, `search_vector_store`, the CrossEncoder and the per-query search loop and context assembly of `get_knowledge_context`.
- Knowledge.Rerank: the CrossEncoder's answer is a parameter (`None` when it raises), so the model does not say which documents rank highest.
- Knowledge.Decompose: Python's `re` is modelled only for the seven patterns it is given:
  - `\s` stands for Python's whitespace characters;
  - case-insensitivity is modelled for ASCII letters, the only ones the patterns contain.
- Prompt prose: the prose of the prompt templates is replaced by a tag per agent and part. Only which keywords are substituted, and where, is modelled.
- `str.format` is modelled only for plain `{name}` placeholders:
  - escaped braces are not modelled; the model's templates have none;
  - nor are format specifications.
- Agent wiring: the LLM's routing, the agent framework's `Agent`/`Runner`/session objects, `say_hello`/`say_goodbye`, the async event loop and `uuid` are left out. From the builder, only its prompt lookups are modelled.
- The approval percentage of the reconciliation is a float and is left out.
- Reconciliation.Compared: an item comparison carries the id, item code, two differences and flag; `item_desc` is not carried, though the prompt's detailed list may show it.
- Reconciliation.Reconcile: the prompt does not say how repeated keys are handled. The model reads the ERP side as the dict the key format suggests, to keep the rule deterministic:
  - when ERP keys repeat, the last ERP item wins;
  - every stock-count item is compared, repeated keys included.
- Reconciliation.Summarize: missing items do not affect the approval; the prompt bases the decision on compared items only. So a transaction with no matched items is APPROVED, as Reconciliation.NoErpDataIsApproved and Reconciliation.NoStockCountIsApproved show.
- MealSupport.ParseDate: month names are exact-case abbreviations, and the day is checked against 1 to 31 with no per-month limit.
- MealSupport.Departed: a flight date that cannot be read counts as not departed.
- MealSupport.CheckMealEligibility: the prompt's `service_type` and finalization status are read from the records' `serviceType` and `flightStatus` fields.
- Pydantic validation of the record types is left out; they are plain datatypes.
- Responses: the lookups' response objects are datatypes, and the meal and flight lookups' string replies are a message variant.
- The test scripts need a live LLM and API keys, so they are left out.

## Findings

| source | as written | input that shows it | evidently intended | confidence | as-written member | corrected member |
|---|---|---|---|---|---|---|
| app/agent_builder.py:51 | the meal-issue agent asks `get_agent_instructions` for "meal_issue_agent", a key the prompt table does not have, so the call raises `ValueError("Unknown agent type: meal_issue_agent")` and `build_root_agent()` never returns an agent | `build_root_agent()` with no arguments | the table's "meal_support_agent" prompt, which describes exactly this agent's flight-then-meal-order eligibility flow | not executed | AgentBuilder.BuildAsWrittenFails | AgentBuilder.BuildCorrectedSucceeds |
