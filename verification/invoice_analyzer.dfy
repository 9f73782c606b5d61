/**
 * `app/services/invoice_analyzer.py`: one record per extracted document, with
 * per-document failures isolated, and the summary fold over the records.
 */
module InvoiceAnalyzer {
  import opened Wrappers
  import opened PyStr
  import opened Json
  import opened Invoice
  import opened LlmService
  import opened PdfProcessor
  import opened VectorStore

  // ---------------------------------------------------------------------------
  // `_calculate_summary`
  // ---------------------------------------------------------------------------

  /** `sum(1 for a in rs if a.status == status)` */
  function CountStatus(rs: seq<InvoiceAnalysis>, status: ReimbursementStatus): (n: nat)
    ensures n <= |rs|
  {
    if rs == [] then 0
    else CountStatus(rs[..|rs| - 1], status) + (if rs[|rs| - 1].status == status then 1 else 0)
  }

  /** `sum(a.amount for a in rs)` */
  function SumAmounts(rs: seq<InvoiceAnalysis>): real {
    if rs == [] then 0.0 else SumAmounts(rs[..|rs| - 1]) + rs[|rs| - 1].amount
  }

  /** `sum(a.reimbursable_amount for a in rs)` */
  function SumReimbursable(rs: seq<InvoiceAnalysis>): real {
    if rs == [] then 0.0 else SumReimbursable(rs[..|rs| - 1]) + rs[|rs| - 1].reimbursableAmount
  }

  /** Every record has exactly one of the four statuses. */
  lemma {:induction false} StatusPartition(rs: seq<InvoiceAnalysis>)
    ensures CountStatus(rs, Approved) + CountStatus(rs, Declined) + CountStatus(rs, PartialApproved)
          + CountStatus(rs, PendingReview) == |rs|
  {
    if rs != [] {
      StatusPartition(rs[..|rs| - 1]);
    }
  }

  lemma {:induction false} CountAppend(a: seq<InvoiceAnalysis>, b: seq<InvoiceAnalysis>, status: ReimbursementStatus)
    ensures CountStatus(a + b, status) == CountStatus(a, status) + CountStatus(b, status)
    decreases |b|
  {
    if b != [] {
      assert (a + b)[..|a + b| - 1] == a + b[..|b| - 1];
      CountAppend(a, b[..|b| - 1], status);
    } else {
      assert a + b == a;
    }
  }

  lemma {:induction false} SumAppend(a: seq<InvoiceAnalysis>, b: seq<InvoiceAnalysis>)
    ensures SumAmounts(a + b) == SumAmounts(a) + SumAmounts(b)
    ensures SumReimbursable(a + b) == SumReimbursable(a) + SumReimbursable(b)
    decreases |b|
  {
    if b != [] {
      assert (a + b)[..|a + b| - 1] == a + b[..|b| - 1];
      SumAppend(a, b[..|b| - 1]);
    } else {
      assert a + b == a;
    }
  }

  /** `approved / total * 100`, the percentage of approved records. */
  function ComplianceRate(approved: nat, total: nat): (rate: real)
    requires 0 < total && approved <= total
    ensures rate * (total as real) == (approved as real) * 100.0
    ensures 0.0 <= rate <= 100.0
  {
    var fraction := approved as real / total as real;
    assert fraction * total as real == approved as real;
    assert fraction <= 1.0;
    fraction * 100.0
  }

  /**
   * `_calculate_summary` before rounding: the record count, the three decided-status
   * counts (pending review is counted in none of them), the two money totals and the
   * percentage of approved records.
   */
  function CalculateSummary(rs: seq<InvoiceAnalysis>): (s: Summary)
    ensures rs == [] ==> s == Summary(0, 0, 0, 0, 0.0, 0.0, 0.0)
    ensures s.totalInvoices == |rs|
    ensures s.approved == CountStatus(rs, Approved)
    ensures s.declined == CountStatus(rs, Declined)
    ensures s.partialApproved == CountStatus(rs, PartialApproved)
    ensures s.approved + s.declined + s.partialApproved + CountStatus(rs, PendingReview) == s.totalInvoices
    ensures s.approved + s.declined + s.partialApproved <= s.totalInvoices
    ensures s.totalAmount == SumAmounts(rs) && s.totalReimbursable == SumReimbursable(rs)
    ensures rs != [] ==> s.complianceRate == ComplianceRate(s.approved, s.totalInvoices)
    ensures 0.0 <= s.complianceRate <= 100.0
  {
    if rs == [] then Summary(0, 0, 0, 0, 0.0, 0.0, 0.0)
    else
      var approved, declined, partial := CountStatus(rs, Approved), CountStatus(rs, Declined),
                                         CountStatus(rs, PartialApproved);
      StatusPartition(rs);
      var rate := ComplianceRate(approved, |rs|);
      Summary(|rs|, approved, declined, partial, SumAmounts(rs), SumReimbursable(rs), rate)
  }

  /**
   * The summary of a concatenation adds up the parts' counts and totals, so a batch may be
   * summarised piecewise.
   */
  lemma SummaryOfConcatenation(a: seq<InvoiceAnalysis>, b: seq<InvoiceAnalysis>)
    ensures var s, sa, sb := CalculateSummary(a + b), CalculateSummary(a), CalculateSummary(b);
      && s.totalInvoices == sa.totalInvoices + sb.totalInvoices
      && s.approved == sa.approved + sb.approved
      && s.declined == sa.declined + sb.declined
      && s.partialApproved == sa.partialApproved + sb.partialApproved
      && s.totalAmount == sa.totalAmount + sb.totalAmount
      && s.totalReimbursable == sa.totalReimbursable + sb.totalReimbursable
  {
    CountAppend(a, b, Approved);
    CountAppend(a, b, Declined);
    CountAppend(a, b, PartialApproved);
    SumAppend(a, b);
  }

  // ---------------------------------------------------------------------------
  // One document
  // ---------------------------------------------------------------------------

  const ProcessingErrorPrefix := "Processing error: "

  /** The keyword arguments the `except` branch of the per-document loop passes to `InvoiceAnalysis`. */
  function ErrorKeywords(filename: string, employeeName: string, cause: string): Dict {
    RequiredOnlyDict(filename, employeeName, 0.0, Food, PendingReview, 0.0, "Failed to process: " + cause)
      ["policy_violations" := Array([Str(ProcessingErrorPrefix + cause)])]
  }

  /** The record built in the `except` branch of the per-document loop. */
  function ErrorAnalysis(filename: string, employeeName: string, cause: string): InvoiceAnalysis {
    NewAnalysis(filename, employeeName, 0.0, Food, PendingReview, 0.0, "Failed to process: " + cause)
      .(policyViolations := [ProcessingErrorPrefix + cause])
  }

  lemma ErrorHeader(filename: string, employeeName: string, cause: string)
    ensures HeaderFromDict(ErrorKeywords(filename, employeeName, cause))
      == Success((filename, employeeName, Some(DefaultVendorName), None, 0.0, Food, []))
  {
    var reasoning := "Failed to process: " + cause;
    var d := RequiredOnlyDict(filename, employeeName, 0.0, Food, PendingReview, 0.0, reasoning);
    var e := ErrorKeywords(filename, employeeName, cause);
    RequiredOnlyHeader(filename, employeeName, 0.0, Food, PendingReview, 0.0, reasoning);
    assert StrField(e, "invoice_id", None) == StrField(d, "invoice_id", None);
    assert StrField(e, "employee_name", None) == StrField(d, "employee_name", None);
    assert OptionalStrField(e, "vendor_name", Some(DefaultVendorName)) == OptionalStrField(d, "vendor_name", Some(DefaultVendorName));
    assert OptionalStrField(e, "date", None) == OptionalStrField(d, "date", None);
    assert RealField(e, "amount", None) == RealField(d, "amount", None);
    assert CategoryField(e, "category") == CategoryField(d, "category");
    assert ItemsField(e, "items") == ItemsField(d, "items");
  }

  lemma ErrorVerdict(filename: string, employeeName: string, cause: string)
    ensures VerdictFromDict(ErrorKeywords(filename, employeeName, cause))
      == Success((PendingReview, 0.0, [ProcessingErrorPrefix + cause], "Failed to process: " + cause, false, true))
  {
    var reasoning := "Failed to process: " + cause;
    var d := RequiredOnlyDict(filename, employeeName, 0.0, Food, PendingReview, 0.0, reasoning);
    var e := ErrorKeywords(filename, employeeName, cause);
    RequiredOnlyVerdict(filename, employeeName, 0.0, Food, PendingReview, 0.0, reasoning);
    assert StatusField(e, "status") == StatusField(d, "status");
    assert RealField(e, "reimbursable_amount", None) == RealField(d, "reimbursable_amount", None);
    assert StrField(e, "reasoning", None) == StrField(d, "reasoning", None);
    assert BoolField(e, "contains_alcohol", false) == BoolField(d, "contains_alcohol", false);
    assert BoolField(e, "submission_date_valid", true) == BoolField(d, "submission_date_valid", true);
    StrsRoundTrip([ProcessingErrorPrefix + cause]);
    assert StrsToValues([ProcessingErrorPrefix + cause]) == [Str(ProcessingErrorPrefix + cause)];
    assert StrListField(e, "policy_violations") == Success([ProcessingErrorPrefix + cause]);
  }

  /**
   * The construction in the `except` branch cannot itself raise: its keyword arguments
   * always build the error record, pending review with vendor "Unknown Vendor".
   */
  lemma ErrorRecordBuilds(filename: string, employeeName: string, cause: string)
    ensures AnalysisFromDict(ErrorKeywords(filename, employeeName, cause)) == Success(ErrorAnalysis(filename, employeeName, cause))
    ensures ErrorAnalysis(filename, employeeName, cause).vendorName == Some("Unknown Vendor")
  {
    ErrorHeader(filename, employeeName, cause);
    ErrorVerdict(filename, employeeName, cause);
  }

  /**
   * The analyzer's view of the LLM service: `analyze_invoice(invoice_text, filename,
   * employee_name)`, which returns a raw record and never raises.
   */
  type Client = (string, string, string) -> Dict

  /** The LLM service's `analyze_invoice` over the given engines. */
  function LlmClient(oracle: Oracle, loads: JsonParser, parseFloat: FloatParser): Client {
    (invoiceText: string, filename: string, employeeName: string) =>
      AnalyzeInvoice(oracle, loads, parseFloat, invoiceText, filename, employeeName)
  }

  /**
   * The body of the per-document `try`: the record built from the raw result, or, when
   * building it fails, a pending-review record for the file with both amounts 0 and the
   * single violation "Processing error: ...".
   */
  function RecordFor(raw: Dict, filename: string, employeeName: string): (a: InvoiceAnalysis)
    ensures var built := AnalysisFromDict(raw);
      && (built.Success? ==> a == built.value)
      && (built.Failure? ==>
            && a.invoiceId == filename && a.employeeName == employeeName
            && a.vendorName == Some(DefaultVendorName)
            && a.status == PendingReview && a.category == Food
            && a.amount == 0.0 && a.reimbursableAmount == 0.0
            && a.policyViolations == [ProcessingErrorPrefix + built.error])
  {
    match AnalysisFromDict(raw)
    case Success(a) => a
    case Failure(cause) => ErrorAnalysis(filename, employeeName, cause)
  }

  /** One iteration of the per-document loop, client call included. */
  function DocumentRecord(client: Client, filename: string, invoiceText: string, employeeName: string)
    : InvoiceAnalysis
  {
    RecordFor(client(invoiceText, filename, employeeName), filename, employeeName)
  }

  /**
   * A reply that does not parse still yields a record: the file's, pending review, with
   * nothing reimbursable and the parse error as its one violation (prefixed when it is a
   * decode error, as is otherwise).
   */
  lemma UnparsableReplyIsPendingReview(
    oracle: Oracle, loads: JsonParser, parseFloat: FloatParser,
    filename: string, invoiceText: string, employeeName: string)
    requires oracle(InvoicePrompt(invoiceText, employeeName, filename)).Replied?
    requires loads(PrepareReply(oracle(InvoicePrompt(invoiceText, employeeName, filename)).text)).Failure?
    ensures var a := DocumentRecord(LlmClient(oracle, loads, parseFloat), filename, invoiceText, employeeName);
      var e := loads(PrepareReply(oracle(InvoicePrompt(invoiceText, employeeName, filename)).text)).error;
      && a.invoiceId == filename
      && a.status == PendingReview
      && a.reimbursableAmount == 0.0
      && (e.JsonDecodeError? ==> a.policyViolations == [ProcessingErrorPrefix + (JsonErrorPrefix + e.message)])
      && (e.LoadRaised? ==> a.policyViolations == [ProcessingErrorPrefix + e.message])
  {
    var e := loads(PrepareReply(oracle(InvoicePrompt(invoiceText, employeeName, filename)).text)).error;
    LoadFailureGivesFallback(oracle, loads, parseFloat, invoiceText, filename, employeeName);
    FallbackIsPendingReview(filename, employeeName, LoadFailureCause(e));
  }

  /** The fallback dictionary becomes the file's pending-review record with the cause as its one violation. */
  lemma FallbackIsPendingReview(filename: string, employeeName: string, cause: string)
    ensures var a := RecordFor(CreateFallbackAnalysis(filename, employeeName, cause), filename, employeeName);
      && a.invoiceId == filename
      && a.status == PendingReview
      && a.reimbursableAmount == 0.0
      && a.policyViolations == [ProcessingErrorPrefix + cause]
  {
    FallbackBuildsRecord(filename, employeeName, cause);
  }

  /** An oracle call that raises yields the file's pending-review record naming the cause. */
  lemma OracleFailureIsPendingReview(
    oracle: Oracle, loads: JsonParser, parseFloat: FloatParser,
    filename: string, invoiceText: string, employeeName: string)
    requires oracle(InvoicePrompt(invoiceText, employeeName, filename)).Raised?
    ensures var a := DocumentRecord(LlmClient(oracle, loads, parseFloat), filename, invoiceText, employeeName);
      var cause := oracle(InvoicePrompt(invoiceText, employeeName, filename)).cause;
      && a.invoiceId == filename
      && a.status == PendingReview
      && a.reimbursableAmount == 0.0
      && a.policyViolations == [ProcessingErrorPrefix + cause]
  {
    FallbackIsPendingReview(filename, employeeName, oracle(InvoicePrompt(invoiceText, employeeName, filename)).cause);
  }

  // ---------------------------------------------------------------------------
  // `analyze_invoice_batch`
  // ---------------------------------------------------------------------------

  const BatchFailurePrefix := "Analysis failed: "

  function BatchFailure(cause: string): AnalysisResponse {
    AnalysisResponse([], None, 0.0, false, BatchFailurePrefix + cause)
  }

  function SuccessMessage(n: nat): string {
    "Successfully analyzed " + NatToString(n) + " invoices"
  }

  /** The file names the batch analyses, in order: the archive's eligible entries. */
  function BatchFiles(archive: Archive): seq<string>
    requires archive.Opened?
  {
    EligibleNames(Namelist(archive.entries))
  }

  /**
   * The per-document loop of `analyze_invoice_batch`: one record per extracted document,
   * in order; a record built from the client's result is also stored.
   */
  method AnalyzeDocuments(client: Client, docs: OrderedDict, employeeName: string, log: seq<StoredAnalysis>)
    returns (results: seq<InvoiceAnalysis>, log': seq<StoredAnalysis>)
    ensures |results| == |docs|
    ensures forall k :: 0 <= k < |docs| ==>
      results[k] == DocumentRecord(client, docs[k].0, docs[k].1, employeeName)
    ensures |log| <= |log'| <= |log| + |docs| && log'[..|log|] == log
  {
    results := [];
    log' := log;
    var i := 0;
    while i < |docs|
      invariant 0 <= i <= |docs|
      invariant |results| == i
      invariant forall k :: 0 <= k < i ==>
        results[k] == DocumentRecord(client, docs[k].0, docs[k].1, employeeName)
      invariant |log| <= |log'| <= |log| + i && log'[..|log|] == log
    {
      var (filename, invoiceText) := docs[i];
      var raw := client(invoiceText, filename, employeeName);
      if AnalysisFromDict(raw).Success? {
        log' := StoreInvoiceAnalysis(log', raw, invoiceText);
      }
      results := results + [DocumentRecord(client, filename, invoiceText, employeeName)];
      i := i + 1;
    }
  }

  /**
   * `analyze_invoice_batch`. `elapsed` stands for the measured wall-clock time; the
   * policy document is accepted but, as in the source, not consulted. `log` is the
   * sequence of `store_invoice_analysis` calls made so far; each document adds at most one.
   */
  method AnalyzeInvoiceBatch(
    client: Client, layout: Extractor, stream: Extractor, policyContent: string,
    archive: Archive, employeeName: string, elapsed: real,
    log: seq<StoredAnalysis>)
    returns (response: AnalysisResponse, log': seq<StoredAnalysis>)
    // an archive that cannot be read fails the whole batch
    ensures archive.Unopenable? ==>
      response == BatchFailure(ZipFailurePrefix + archive.cause) && log' == log
    ensures archive.Opened? && BatchFiles(archive) == [] ==>
      response == BatchFailure(NoPdfsMessage) && log' == log
    // otherwise each eligible file gets exactly one record, in order
    ensures archive.Opened? && BatchFiles(archive) != [] ==>
      && response.success
      && |response.analysisResults| == |BatchFiles(archive)|
      && (forall k :: 0 <= k < |response.analysisResults| ==>
            response.analysisResults[k] == DocumentRecord(client, BatchFiles(archive)[k],
              EntryText(layout, stream, archive.entries, BatchFiles(archive)[k]), employeeName))
      && response.summary == Some(CalculateSummary(response.analysisResults))
      && response.processingTime == elapsed
      && response.message == SuccessMessage(|response.analysisResults|)
    // the store is only appended to, at most once per record
    ensures |log| <= |log'| <= |log| + |response.analysisResults| && log'[..|log|] == log
  {
    var extracted := ProcessZipFile(layout, stream, archive);
    if extracted.Failure? {
      return BatchFailure(extracted.error), log;
    }
    var docs := extracted.value;
    assert forall k :: 0 <= k < |docs| ==> docs[k].0 == KeysOf(docs)[k];
    var results;
    results, log' := AnalyzeDocuments(client, docs, employeeName, log);
    response := AnalysisResponse(results, Some(CalculateSummary(results)), elapsed, true,
                                 SuccessMessage(|results|));
  }
}
