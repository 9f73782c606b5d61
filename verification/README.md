# Invoice reimbursement analyzer — a Dafny model

The system reads a ZIP archive of invoice PDFs for one employee. It extracts each PDF's
text, asks a generative model to judge the invoice against the company's reimbursement
policy, and turns each answer into an `InvoiceAnalysis` record. It then sums the records
into a batch summary. A chat endpoint answers questions about stored analyses and keeps
per-conversation histories.

This project models the deterministic code around the external engines:

- **`LlmService`**: the LLM service.
  - Cleaning a model reply: strip, drop a code fence, cut to the `{...}` span.
  - Filling and coercing the record (`_validate_analysis_result`).
  - The fallback record, the error routing of `analyze_invoice`, and the chat reply.
- **`PdfProcessor`**: the PDF processor.
  - The two-library extraction fallback with its usable-text threshold of 20.
  - The archive walk that keeps `*.pdf` entries (case-insensitive) outside `__MACOSX`.
- **`InvoiceAnalyzer`**: the batch analyzer.
  - The per-document loop: one record per document, and a pending-review record when
    construction fails.
  - The summary fold.
- **`ConversationManager`**: one chat query against the session table.
- **`Invoice`**: the enums, records and keyword construction (`InvoiceAnalysis(**d)`) of
  the data models, plus the inverse `AnalysisToDict`.
- **`PyStr`, `Json`, `Wrappers`, `VectorStore`**: the Python string operations used, the
  JSON value type, `Option`/`Result`, and the boundary of the vector store.

The external engines are function-typed parameters:

| engine | parameter | what the model assumes |
|---|---|---|
| generative model | `Oracle` | returns a text or raises |
| `json.loads` | `JsonParser` | returns a value, a decode error, or another raised error (a digit-limit `ValueError`, a `RecursionError`) |
| `float(str)` | `FloatParser` | returns a number or `None` |
| pdfplumber, pypdf | `Extractor` | per-page texts, or a crash |
| zip reader | `Archive` | cannot be opened, or a list of named entries |
| similarity search | `Search` | returns documents, or an error |
| uuid generator | string arguments | a given id |
| clock | `elapsed` | a given real number |

The store is the sequence of `store_invoice_analysis` calls.

The code and its documentation differ in one place, and the model follows the code.
`_validate_analysis_result` fills a missing vendor with "Unknown" (app/services/llm_service.py:96),
while the record's declared default is "Unknown Vendor" (app/models/invoice.py:31). So a record
built from the LLM service whose reply omitted `vendor_name` says "Unknown", and so does every
fallback record. Only the analyzer's own error record, built without a vendor, says "Unknown Vendor".

`search_similar_documents` catches every exception and returns `[]`
(app/services/vector_store.py:87-89). With the real store, therefore, the error branch of
`process_query` is effectively unreachable. `Search` returns a `Result` so that this branch
is modelled anyway.

## Model

| member | source | states |
|---|---|---|
| PyStr.Strip | app/services/llm_service.py:63 | `str.strip()` with Python's whitespace set: the result is the input's slice between a run of leading and a run of trailing whitespace; it does not start or end with whitespace, and is empty exactly when the input is all whitespace |
| PyStr.StripUnpadded | app/services/llm_service.py:63 | a non-empty text with no whitespace at either end is unchanged by stripping |
| PyStr.JoinConcat | app/services/pdf_processor.py:42 | joining two non-empty lists is joining each and putting one separator between them |
| PyStr.SplitJoin | app/services/pdf_processor.py:42 | joining pieces that contain no separator with `sep.join` and splitting on the separator gives the pieces back |
| PyStr.NatToStringRoundTrip | app/services/invoice_analyzer.py:69 | the decimal rendering of a count used in the success message reads back as the same number |
| PyStr.NatToStringInjective | app/services/conversation_manager.py:40 | different numbers render differently, so the numbered labels are distinct |
| Invoice.ParseCategory | app/models/invoice.py:6-11 | the category enum accepts exactly its four string values |
| Invoice.ParseStatus | app/models/invoice.py:13-18 | the status enum accepts exactly its four string values, and anything else is rejected |
| Invoice.CategoryRoundTrip | app/models/invoice.py:6-11 | every category is recovered from its value |
| Invoice.StatusRoundTrip | app/models/invoice.py:13-18 | every status is recovered from its value |
| Invoice.ItemRoundTrip | app/models/invoice.py:20-25 | a line item rebuilt from its own dictionary is the same item |
| Invoice.ItemsRoundTrip | app/models/invoice.py:35 | a list of items rebuilt from its dictionaries is the same list |
| Invoice.StrsRoundTrip | app/models/invoice.py:38 | a list of violation strings survives the round trip through JSON values |
| Invoice.ItemDefaults | app/models/invoice.py:20-25 | an empty item object builds the item with the declared defaults: "Unknown Item", quantity 1, prices 0 |
| Invoice.IdentityFields | app/models/invoice.py:29-31 | invoice id, employee and vendor are read back from the record's dictionary |
| Invoice.PurchaseFields | app/models/invoice.py:32-34 | date, amount and category are read back from the record's dictionary |
| Invoice.ItemsFieldRoundTrip | app/models/invoice.py:35 | the items field is read back from the record's dictionary |
| Invoice.StatusFieldRoundTrip | app/models/invoice.py:36 | the status field is read back from the record's dictionary |
| Invoice.DecisionFields | app/models/invoice.py:37-38 | reimbursable amount and policy violations are read back from the record's dictionary |
| Invoice.FlagFields | app/models/invoice.py:39-41 | reasoning and the two flags are read back from the record's dictionary |
| Invoice.HeaderRoundTrip | app/models/invoice.py:29-35 | the seven identifying fields survive the round trip |
| Invoice.VerdictRoundTrip | app/models/invoice.py:36-41 | the six decision fields survive the round trip |
| Invoice.AnalysisRoundTrip | app/models/invoice.py:27-41 | keyword construction inverts `AnalysisToDict`: every record is rebuilt from its own dictionary |
| Invoice.RequiredOnlyHeader | app/models/invoice.py:29-35 | with only the required keys present, the optional identifying fields take their defaults |
| Invoice.RequiredOnlyVerdict | app/models/invoice.py:36-41 | with only the required keys present, violations, alcohol flag and date-validity flag take their defaults |
| Invoice.AnalysisDefaults | app/models/invoice.py:27-41 | a dictionary with just the seven required fields builds the same record as the required-fields constructor, with vendor "Unknown Vendor" |
| Invoice.UnknownStatusRejected | app/models/invoice.py:36 | a status string outside the enum makes construction fail |
| Invoice.UnknownCategoryRejected | app/models/invoice.py:34 | a category string outside the enum makes construction fail |
| Invoice.MissingRequiredFieldRejected | app/models/invoice.py:29-41 | construction fails whenever one of the seven fields without a default is missing |
| Invoice.BuiltRecordReadsFields | app/models/invoice.py:29-41 | a record that builds holds exactly the strings the dictionary gave for id, employee, category, status and reasoning |
| LlmService.StripCodeFence | app/services/llm_service.py:66-69 | a reply not opening with a fence is left alone; after "```json" the result is the text from index 7 up to the last three characters, after a bare fence from index 3, and empty when the reply is too short for the two cuts (under 10 or 6 characters) |
| LlmService.JsonFenceRoundTrip | app/services/llm_service.py:66-67 | a body wrapped in a "```json" fence comes out exactly |
| LlmService.PlainFenceRoundTrip | app/services/llm_service.py:68-69 | a body wrapped in a bare fence comes out exactly, unless the body starts with "json" |
| LlmService.JsonSpanBounds | app/services/llm_service.py:72 | the greedy DOTALL match runs from the first "{" to the last "}"; there is no match exactly when no "}" follows a "{" |
| LlmService.ExtractJsonSpan | app/services/llm_service.py:72-74 | a found span starts with "{" and ends with "}"; without a match the text is unchanged |
| LlmService.SpanAroundPayload | app/services/llm_service.py:72-74 | commentary with no "{" before the payload and no "}" after it is cut away exactly |
| LlmService.PrepareReply | app/services/llm_service.py:63-74 | the cleaned reply is a contiguous piece of the raw reply |
| LlmService.PrepareFencedObject | app/services/llm_service.py:63-74 | cleaning a reply that is exactly a "```json" fence around a braced payload gives the payload |
| LlmService.PyFloat | app/services/llm_service.py:110-114 | `float()` of a JSON value: a bool gives 1.0 or 0.0, a number its value, a string what the parser reads; None, lists, dicts and unparsable strings are rejected (the ValueError/TypeError branch), and only an integer beyond the double range overflows |
| LlmService.SetDefaults | app/services/llm_service.py:94-106 | after the setdefault calls the keys are the old keys plus the thirteen required ones |
| LlmService.ValidateAnalysisResult | app/services/llm_service.py:91-116 | no key is removed; a present non-money key is kept, an absent one gets its default; money is coerced all-or-nothing (both converted, or both 0.0 after a ValueError/TypeError); an integer too large for a double escapes as OverflowError |
| LlmService.ValidateNormal | app/services/llm_service.py:91-116 | a record with all keys and float amounts passes validation unchanged, for any file and employee |
| LlmService.ValidateMakesNormal | app/services/llm_service.py:94-114 | validated output has all thirteen keys and float amounts |
| LlmService.ValidateIdempotent | app/services/llm_service.py:91-116 | validating validated output again changes nothing |
| LlmService.ValidateEmpty | app/services/llm_service.py:94-106 | an empty object is filled with exactly the documented defaults: vendor "Unknown", date None, category food, status pending_review, amounts 0 |
| LlmService.CreateFallbackAnalysis | app/services/llm_service.py:118-133 | the fallback dictionary is already in validated form |
| LlmService.FallbackBuildsRecord | app/services/llm_service.py:118-133 | the fallback always builds a valid record: the file's id, the given employee, amounts 0, pending review, one "Processing error: ..." violation, and reasoning ending "Manual review required." |
| LlmService.AnalyzeInvoice | app/services/llm_service.py:61-89 | `analyze_invoice` always returns validated form; a raising model call gives the fallback with the exception text; a decode error gives the fallback with "JSON parsing error: ..."; any other error of the parser gives the fallback with its own text; a parsed non-object gives the fallback with the AttributeError text of `setdefault` on it; a parsed object is returned validated, or gives the fallback with the OverflowError text |
| LlmService.LoadFailureGivesFallback | app/services/llm_service.py:84-89 | when parsing fails the answer is the fallback, with "JSON parsing error: " before a decode error's message and the bare message otherwise |
| LlmService.FencedObjectReplyIsValidated | app/services/llm_service.py:61-82 | a reply that is exactly a "```json" fence around an object parses that object, and the answer is its validated form |
| LlmService.AnalyzeInvoiceIsValidated | app/services/llm_service.py:76-89 | whatever the engines do, validating the result again changes nothing |
| LlmService.ChatContext | app/services/llm_service.py:136 | no documents give the "No relevant documents found." text; up to five are joined by blank lines |
| LlmService.ContextIgnoresExtraDocuments | app/services/llm_service.py:136 | documents after the fifth never reach the prompt |
| LlmService.GenerateChatResponse | app/services/llm_service.py:155-160 | the reply is the model's stripped text, or an apology starting "I apologize, but I encountered an error: " followed by the exception text |
| PdfProcessor.PagesWithText | app/services/pdf_processor.py:38-41 | only non-empty page texts are kept, every one of them is kept, and the list is empty exactly when no page has text |
| PdfProcessor.PagesWithTextOfPage | app/services/pdf_processor.py:38-41 | a single page contributes its text when it has one, and nothing otherwise |
| PdfProcessor.PagesWithTextConcat | app/services/pdf_processor.py:38-41 | the kept texts of two page runs are the kept texts of the first followed by those of the second, so page order is kept |
| PdfProcessor.StrategyText | app/services/pdf_processor.py:34-56 | a library that raises yields ""; otherwise the text is empty exactly when no page has text |
| PdfProcessor.StrategyTextOfPage | app/services/pdf_processor.py:34-56 | a one-page document yields that page's text, or "" when it has none |
| PdfProcessor.StrategyTextConcat | app/services/pdf_processor.py:34-56 | the text of two page runs is the text of the first, a newline and the text of the second, with no newline when either side is empty |
| PdfProcessor.StrategyTextSplitsIntoPages | app/services/pdf_processor.py:42 | when pages hold no newline, the joined text splits back into exactly the non-empty pages |
| PdfProcessor.PagesComeFromTexts | app/services/pdf_processor.py:38-41 | every kept text is some page's text |
| PdfProcessor.ExtractTextFromPdf | app/services/pdf_processor.py:13-28 | the result is never empty; usable layout text (over 20 characters once stripped) wins; otherwise the stream text, or "No readable text found" when that is empty |
| PdfProcessor.ShortLayoutTextDiscarded | app/services/pdf_processor.py:16-22 | unusable layout text has no influence: the result is as if that library had crashed |
| PdfProcessor.EligibleEntryIff | app/services/pdf_processor.py:64 | an entry is processed exactly when its name ends in ".pdf" in any letter case and does not start with "__MACOSX" (case-sensitive) |
| PdfProcessor.ReadByNameFindsLastEntry | app/services/pdf_processor.py:66 | reading a name gives the data of the last entry with that name |
| PdfProcessor.ReadByNameMissing | app/services/pdf_processor.py:66 | reading a name no entry has fails with the "There is no item named ..." KeyError text |
| PdfProcessor.EligibleNames | app/services/pdf_processor.py:63-68 | the processed names are exactly the eligible names, each once; they are empty exactly when no entry is eligible |
| PdfProcessor.EligibleNamesInFirstOccurrenceOrder | app/services/pdf_processor.py:63-68 | the processed names come in the order of their first occurrence in the archive listing |
| PdfProcessor.Put | app/services/pdf_processor.py:68 | dict assignment keeps an existing key's position and replaces its value, and appends a new key |
| PdfProcessor.ExtractEntry | app/services/pdf_processor.py:63-72 | one loop turn keeps the keys equal to the eligible names seen so far, and every value the text of its entry, or the "Error processing ..." text when reading fails |
| PdfProcessor.ProcessZipFile | app/services/pdf_processor.py:58-80 | an unopenable archive fails with "Failed to process ZIP file: ..."; the call fails with "No valid PDFs found in ZIP file" exactly when no entry is eligible; otherwise the keys are the eligible names in first-occurrence order, each with its entry's text |
| VectorStore.StoreInvoiceAnalysis | app/services/vector_store.py:33-71 | storing never fails and never changes earlier entries |
| InvoiceAnalyzer.CountStatus | app/services/invoice_analyzer.py:95-97 | a status count never exceeds the number of records |
| InvoiceAnalyzer.StatusPartition | app/services/invoice_analyzer.py:95-97 | the four status counts add up to the number of records |
| InvoiceAnalyzer.CountAppend | app/services/invoice_analyzer.py:95-97 | counting distributes over concatenation |
| InvoiceAnalyzer.SumAppend | app/services/invoice_analyzer.py:99-100 | both money totals distribute over concatenation |
| InvoiceAnalyzer.ComplianceRate | app/services/invoice_analyzer.py:102 | the rate times the total equals 100 times the approved count, and lies between 0 and 100 |
| InvoiceAnalyzer.CalculateSummary | app/services/invoice_analyzer.py:82-112 | the empty batch gives all zeros; otherwise the total is the record count, the three decided counts plus pending review add up to it, the totals are the sums, and the rate is the approved percentage, within 0 to 100 |
| InvoiceAnalyzer.SummaryOfConcatenation | app/services/invoice_analyzer.py:94-100 | the summary of two batches together adds up their counts and totals |
| InvoiceAnalyzer.RecordFor | app/services/invoice_analyzer.py:30-56 | a record that builds is kept as built; otherwise the file gets a pending-review record with amounts 0, category food, vendor "Unknown Vendor" and the single violation "Processing error: ..." |
| InvoiceAnalyzer.ErrorRecordBuilds | app/services/invoice_analyzer.py:46-55 | the keyword arguments of the error record always build, to the pending-review record with vendor "Unknown Vendor", "Processing error: " before the cause and "Failed to process: " before it in the reasoning |
| InvoiceAnalyzer.FallbackIsPendingReview | app/services/llm_service.py:118-133 | the record built from a fallback carries the file's id, pending review, nothing reimbursable and the one "Processing error: " violation |
| InvoiceAnalyzer.UnparsableReplyIsPendingReview | app/services/llm_service.py:84-89 | a model reply that does not parse still gives the file a pending-review record with nothing reimbursable; its one violation carries "JSON parsing error: " and the message for a decode error, and the bare message for any other parser error |
| InvoiceAnalyzer.OracleFailureIsPendingReview | app/services/llm_service.py:87-89 | a model call that raises gives the file a pending-review record naming the cause |
| InvoiceAnalyzer.AnalyzeDocuments | app/services/invoice_analyzer.py:29-56 | each extracted document gets exactly one record, in order; the store is only appended to, at most once per document |
| InvoiceAnalyzer.AnalyzeInvoiceBatch | app/services/invoice_analyzer.py:16-80 | an archive failure gives an unsuccessful response with no results, an empty summary, time 0 and "Analysis failed: ..."; otherwise one record per eligible file in order, the summary of those records, and "Successfully analyzed N invoices" |
| ConversationManager.ConversationId | app/services/conversation_manager.py:17 | a supplied non-empty id is kept; a missing or empty one is replaced by the fresh id |
| ConversationManager.SourceLabels | app/services/conversation_manager.py:40 | there are as many labels as documents, and label i is "Document " followed by the decimal digits of i+1 |
| ConversationManager.SourceLabelsDistinct | app/services/conversation_manager.py:40 | the source labels are pairwise distinct |
| ConversationManager.AppendTurns | app/services/conversation_manager.py:32-38 | the session gains exactly the user turn and the assistant turn, a new session starting empty; every other session is unchanged |
| ConversationManager.QueryFailed | app/services/conversation_manager.py:49-56 | the error reply is unsuccessful, has no sources, starts with the apology, and carries the request's id or a fresh one |
| ConversationManager.QueryAnswered | app/services/conversation_manager.py:17-47 | a successful reply carries the session id, the chat answer for the found documents and one numbered label per document; the table gains the session if new, the session's history is the old one followed by the user turn and the assistant turn, and every other session is unchanged |
| ConversationManager.ProcessQuery | app/services/conversation_manager.py:15-56 | a failing search leaves the table alone and apologises; otherwise the session gains exactly two turns, every other session is unchanged, and there is one label "Document i" per document |
| ConversationManager.QueriesOnDistinctSessionsCommute | app/services/conversation_manager.py:32-38 | queries on different sessions leave the same table in either order |

## Left out

- The wording of the two prompts and the policy rules in them: they only shape what the model is asked and carry no logic; the model's answers are a parameter.
- The grammars of `json.loads` and `float(str)` (including "inf" and "nan"): they are parameters.
- The `NaN`, `Infinity` and `-Infinity` literals that `json.loads` accepts: `Float` holds exact reals, so a parser returning them cannot be expressed.
- Binary floating point: amounts are exact reals. An integer too large for a double is modelled as `float()`'s OverflowError.
- pydantic's lax coercions (for example a numeric string for a float field) and the exact wording of its error messages: construction accepts exact JSON shapes and gives short messages of the same form.
- The outer `except` of `extract_text_from_pdf` (app/services/pdf_processor.py:30-32): both helpers catch everything, so it cannot fire.
- Logging, the library and client set-up code, `main.py`, the Streamlit front end, configuration and the exception classes: none of them decides a result.
- The vector store's embedding, metadata and similarity search: the store is the sequence of calls it receives, and the search is a parameter.
- The defaults of `AnalysisResponse.success` and `message` and of `ChatResponse.sources` and `success`: every call site passes them explicitly.
- PyStr.Lower: lower-cases ASCII letters only, so a name ending in a non-ASCII character that Python lower-cases to ".pdf" is not covered.
- InvoiceAnalyzer.CalculateSummary: does not model `round(..., 2)` on the totals or `round(..., 1)` on the rate; the contract states the exact values before rounding.
- InvoiceAnalyzer.AnalyzeInvoiceBatch: the processing time is the given elapsed value, without `round(..., 2)`; the wall clock is not modelled.
- InvoiceAnalyzer.AnalyzeInvoiceBatch: states that the store only grows, by at most one entry per document, not exactly which entries are stored.
- InvoiceAnalyzer.AnalyzeDocuments: states the same weaker fact about the store as the batch.
- The unused `policy_content` argument of `analyze_invoice_batch` is accepted and ignored, as in the source.
