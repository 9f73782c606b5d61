/**
 * `app/services/llm_service.py`: the deterministic code around the text-generation model.
 * The model itself, `json.loads` and `float(str)` are parameters; the code between them
 * (fence stripping, span extraction, default filling, money coercion and the fallback
 * record) is modelled branch for branch.
 */
module LlmService {
  import opened Wrappers
  import opened PyStr
  import opened Json
  import opened Invoice

  /**
   * What a prompt embeds. The fixed wording of the two templates (the policy text and
   * the schema example) carries no logic and is not modelled.
   */
  datatype Prompt =
    | InvoicePrompt(invoiceText: string, employeeName: string, filename: string)
    | ChatPrompt(context: string, query: string)

  /** One `generate_content` call: the response text, or the message of what it raised. */
  datatype OracleReply = Replied(text: string) | Raised(cause: string)

  /** The generative model. */
  type Oracle = Prompt -> OracleReply

  /**
   * What `json.loads` can raise: a `JSONDecodeError` for malformed text, or another
   * exception (the `ValueError` for an integer literal past Python's digit limit, the
   * `RecursionError` for very deep nesting).
   */
  datatype LoadError = JsonDecodeError(message: string) | LoadRaised(message: string)

  /** `json.loads`: a value, or what it raised. */
  type JsonParser = string -> Result<Value, LoadError>

  /** `float(s)` on a string: a number, or `None` for the `ValueError`. */
  type FloatParser = string -> Option<real>

  // ---------------------------------------------------------------------------
  // Cleaning the raw reply
  // ---------------------------------------------------------------------------

  /**
   * Drops a markdown code fence: the "```json" or "```" opener, and the last three
   * characters whatever they are; a fenced text too short to hold both becomes "".
   */
  function StripCodeFence(s: string): (r: string)
    ensures !StartsWith(s, "```") ==> r == s
    ensures StartsWith(s, "```json") ==> r == (if |s| >= 10 then s[7..|s| - 3] else [])
    ensures StartsWith(s, "```") && !StartsWith(s, "```json") ==> r == (if |s| >= 6 then s[3..|s| - 3] else [])
    ensures |r| <= |s|
  {
    if StartsWith(s, "```json") then SliceInner(s, 7, 3)
    else if StartsWith(s, "```") then SliceInner(s, 3, 3)
    else s
  }

  /** A reply wrapped in a "```json" fence comes out as the fenced body. */
  lemma JsonFenceRoundTrip(body: string)
    ensures StripCodeFence("```json" + body + "```") == body
  {
    var s := "```json" + body + "```";
    assert s[..7] == "```json";
    assert s[7..|s| - 3] == body;
  }

  /** A reply wrapped in a bare "```" fence comes out as the fenced body, unless the body itself starts with "json". */
  lemma PlainFenceRoundTrip(body: string)
    requires !StartsWith(body, "json")
    ensures StripCodeFence("```" + body + "```") == body
  {
    var s := "```" + body + "```";
    assert s[..3] == "```";
    assert !StartsWith(s, "```json") by {
      if |body| >= 4 {
        assert s[3..7] == body[..4];
      } else {
        assert s[3 + |body|] == '`';
      }
    }
    assert s[3..|s| - 3] == body;
  }

  /**
   * Where `re.search(r'\{.*\}', s, re.DOTALL)` matches: from the first "{" to the last "}",
   * provided that "}" comes after that "{".
   */
  function JsonSpanBounds(s: string): (r: Option<(nat, nat)>)
    ensures r.Some? ==> r.value.0 < r.value.1 < |s|
    ensures r.Some? ==> s[r.value.0] == '{' && forall k :: 0 <= k < r.value.0 ==> s[k] != '{'
    ensures r.Some? ==> s[r.value.1] == '}' && forall k :: r.value.1 < k < |s| ==> s[k] != '}'
    ensures r.None? ==> forall i, j :: 0 <= i < j < |s| && s[i] == '{' ==> s[j] != '}'
  {
    match FindFirst(s, '{')
    case None => None
    case Some(i) =>
      match FindLast(s, '}')
      case None => None
      case Some(j) => if i < j then Some((i, j)) else None
  }

  /** The text handed to `json.loads`: the brace-delimited span if there is one, else all of `s`. */
  function ExtractJsonSpan(s: string): (r: string)
    ensures JsonSpanBounds(s).None? ==> r == s
    ensures JsonSpanBounds(s).Some? ==> |r| >= 2 && r[0] == '{' && r[|r| - 1] == '}'
  {
    match JsonSpanBounds(s)
    case Some((i, j)) => s[i..j + 1]
    case None => s
  }

  /** Commentary around the payload is cut away, as long as it holds no "{" before and no "}" after. */
  lemma SpanAroundPayload(prefix: string, payload: string, suffix: string)
    requires |payload| >= 2 && payload[0] == '{' && payload[|payload| - 1] == '}'
    requires forall k :: 0 <= k < |prefix| ==> prefix[k] != '{'
    requires forall k :: 0 <= k < |suffix| ==> suffix[k] != '}'
    ensures ExtractJsonSpan(prefix + payload + suffix) == payload
  {
    var s := prefix + payload + suffix;
    var i, j := |prefix|, |prefix| + |payload| - 1;
    assert s[i] == '{' && s[j] == '}';
    forall k | 0 <= k < i ensures s[k] != '{' {
      assert s[k] == prefix[k];
    }
    forall k | j < k < |s| ensures s[k] != '}' {
      assert s[k] == suffix[k - j - 1];
    }
    var b := JsonSpanBounds(s);
    assert b.Some?;
    var (bi, bj) := b.value;
    assert bi == i;
    assert bj == j;
    assert s[i..j + 1] == payload;
  }

  /** `r` occurs in `s` at offset `i`. */
  predicate OccursAt(s: string, i: int, r: string) {
    0 <= i <= |s| - |r| && s[i..i + |r|] == r
  }

  lemma OccursAtTransitive(s: string, i: int, t: string, j: int, r: string)
    requires OccursAt(s, i, t) && OccursAt(t, j, r)
    ensures OccursAt(s, i + j, r)
  {
    forall m | 0 <= m < |r| ensures s[i + j + m] == r[m] {
      assert r[m] == t[j + m] == s[i + j + m];
    }
    assert s[i + j..i + j + |r|] == r;
  }

  lemma {:induction false} FenceOccurs(s: string)
    ensures exists j :: OccursAt(s, j, StripCodeFence(s))
  {
    var r := StripCodeFence(s);
    if r == [] {
      assert OccursAt(s, 0, r);
    } else if StartsWith(s, "```json") {
      assert OccursAt(s, 7, r);
    } else if StartsWith(s, "```") {
      assert OccursAt(s, 3, r);
    } else {
      assert OccursAt(s, 0, r);
    }
  }

  lemma {:induction false} SpanOccurs(s: string)
    ensures exists k :: OccursAt(s, k, ExtractJsonSpan(s))
  {
    match JsonSpanBounds(s)
    case Some((i, j)) => assert OccursAt(s, i, ExtractJsonSpan(s));
    case None => assert OccursAt(s, 0, ExtractJsonSpan(s));
  }

  lemma {:induction false} UnfencedOccurs(text: string)
    ensures exists i :: OccursAt(text, i, StripCodeFence(Strip(text)))
  {
    var stripped := Strip(text);
    var i :| PaddedBy(text, i, stripped);
    FenceOccurs(stripped);
    var j :| OccursAt(stripped, j, StripCodeFence(stripped));
    OccursAtTransitive(text, i, stripped, j, StripCodeFence(stripped));
  }

  lemma {:induction false} PrepareOccurs(text: string)
    ensures exists i :: OccursAt(text, i, ExtractJsonSpan(StripCodeFence(Strip(text))))
  {
    var unfenced := StripCodeFence(Strip(text));
    UnfencedOccurs(text);
    var i :| OccursAt(text, i, unfenced);
    SpanOccurs(unfenced);
    var k :| OccursAt(unfenced, k, ExtractJsonSpan(unfenced));
    OccursAtTransitive(text, i, unfenced, k, ExtractJsonSpan(unfenced));
  }

  /**
   * What `analyze_invoice` hands to `json.loads`: stripped, unfenced, cut to the brace
   * span. Each step only cuts, so the result is a stretch of the reply.
   */
  function PrepareReply(text: string): (r: string)
    ensures exists i :: OccursAt(text, i, r)
  {
    PrepareOccurs(text);
    ExtractJsonSpan(StripCodeFence(Strip(text)))
  }

  /** A reply that is exactly a "```json" fence around a brace-delimited payload is parsed as that payload. */
  lemma PrepareFencedObject(payload: string)
    requires |payload| >= 2 && payload[0] == '{' && payload[|payload| - 1] == '}'
    ensures PrepareReply("```json" + payload + "```") == payload
  {
    var text := "```json" + payload + "```";
    StripUnpadded(text);
    JsonFenceRoundTrip(payload);
    SpanAroundPayload([], payload, []);
    assert [] + payload + [] == payload;
  }

  // ---------------------------------------------------------------------------
  // Validation: `_validate_analysis_result`
  // ---------------------------------------------------------------------------

  /** The thirteen keys `_validate_analysis_result` guarantees. */
  const RequiredKeys: set<string> := {
    "invoice_id", "employee_name", "vendor_name", "date", "amount", "category", "items",
    "status", "reimbursable_amount", "policy_violations", "reasoning", "contains_alcohol",
    "submission_date_valid"}

  /** The value `setdefault` puts under a required key that is absent. */
  function DefaultFor(key: string, filename: string, employeeName: string): Value {
    if key == "invoice_id" then Str(filename)
    else if key == "employee_name" then Str(employeeName)
    else if key == "vendor_name" then Str("Unknown")
    else if key == "amount" then Float(0.0)
    else if key == "category" then Str("food")
    else if key == "items" then Array([])
    else if key == "status" then Str("pending_review")
    else if key == "reimbursable_amount" then Float(0.0)
    else if key == "policy_violations" then Array([])
    else if key == "reasoning" then Str("Analysis completed")
    else if key == "contains_alcohol" then Bool(false)
    else if key == "submission_date_valid" then Bool(true)
    else Null  // "date" defaults to None
  }

  /** What `d[key]` holds after `d.setdefault(key, ...)`. */
  function Given(d: Dict, key: string, filename: string, employeeName: string): Value {
    if key in d then d[key] else DefaultFor(key, filename, employeeName)
  }

  /**
   * The thirteen `setdefault` calls: each absent required key gets its default, present
   * keys (required or not) are kept. The calls touch distinct keys, so their order is
   * immaterial.
   */
  function SetDefaults(d: Dict, filename: string, employeeName: string): (r: Dict)
    ensures r.Keys == d.Keys + RequiredKeys
  {
    map k | k in d.Keys + RequiredKeys :: Given(d, k, filename, employeeName)
  }

  /** The outcome of Python's `float(v)`. */
  datatype Coercion = Coerced(x: real) | Rejected | Overflowed

  function Pow2(n: nat): nat {
    if n == 0 then 1 else 2 * Pow2(n - 1)
  }

  /**
   * The least integer magnitude that `float()` refuses: it rounds (half to even) past the
   * largest double, 2^1024 - 2^971.
   */
  const FloatOverflowBound: int := Pow2(1024) - Pow2(970)

  const FloatOverflowMessage := "int too large to convert to float"

  /**
   * `float(v)`: booleans count as 0 and 1, numbers convert (an integer too large for a
   * double raises `OverflowError`), strings go through the parser, anything else is a
   * `TypeError`.
   */
  function PyFloat(v: Value, parseFloat: FloatParser): (c: Coercion)
    ensures c.Overflowed? <==> v.Int? && (v.i >= FloatOverflowBound || -v.i >= FloatOverflowBound)
    ensures c.Rejected? <==> (v.Str? && parseFloat(v.s).None?) || v.Null? || v.Array? || v.Object?
    ensures c.Coerced? && v.Int? ==> c.x == v.i as real
    ensures c.Coerced? && v.Float? ==> c.x == v.x
    ensures v.Bool? ==> c == Coerced(if v.b then 1.0 else 0.0)
  {
    match v
    case Bool(b) => Coerced(if b then 1.0 else 0.0)
    case Int(i) => if i >= FloatOverflowBound || -i >= FloatOverflowBound then Overflowed else Coerced(i as real)
    case Float(x) => Coerced(x)
    case Str(s) => (match parseFloat(s) case Some(x) => Coerced(x) case None => Rejected)
    case _ => Rejected
  }

  predicate IsMoneyKey(key: string) {
    key == "amount" || key == "reimbursable_amount"
  }

  function ZeroMoney(d: Dict): Dict {
    d["amount" := Float(0.0)]["reimbursable_amount" := Float(0.0)]
  }

  /**
   * `_validate_analysis_result`. Only the `OverflowError` of `float()` escapes it (the
   * `except` there names `ValueError` and `TypeError` alone), as a `Failure`.
   */
  function ValidateAnalysisResult(d: Dict, filename: string, employeeName: string, parseFloat: FloatParser)
    : (r: Result<Dict, string>)
    // every required key ends up present, and nothing is removed
    ensures r.Success? ==> r.value.Keys == d.Keys + RequiredKeys
    // a present key is never overwritten, an absent one gets its default
    ensures r.Success? ==> forall k :: k in r.value && !IsMoneyKey(k) ==>
              r.value[k] == Given(d, k, filename, employeeName)
    // money is coerced all-or-nothing
    ensures
      var ca := PyFloat(Given(d, "amount", filename, employeeName), parseFloat);
      var cb := PyFloat(Given(d, "reimbursable_amount", filename, employeeName), parseFloat);
      && (r.Failure? <==> ca.Overflowed? || (ca.Coerced? && cb.Overflowed?))
      && (r.Failure? ==> r.error == FloatOverflowMessage)
      && (ca.Coerced? && cb.Coerced? ==>
            r.value["amount"] == Float(ca.x) && r.value["reimbursable_amount"] == Float(cb.x))
      && (ca.Rejected? || (ca.Coerced? && cb.Rejected?) ==>
            r.value["amount"] == Float(0.0) && r.value["reimbursable_amount"] == Float(0.0))
  {
    var filled := SetDefaults(d, filename, employeeName);
    match PyFloat(filled["amount"], parseFloat)
    case Overflowed => Failure(FloatOverflowMessage)
    case Rejected => Success(ZeroMoney(filled))
    case Coerced(a) =>
      match PyFloat(filled["reimbursable_amount"], parseFloat)
      case Overflowed => Failure(FloatOverflowMessage)
      case Rejected => Success(ZeroMoney(filled))
      case Coerced(b) => Success(filled["amount" := Float(a)]["reimbursable_amount" := Float(b)])
  }

  /** A record that validation leaves alone: all thirteen keys present, both amounts already floats. */
  predicate IsNormal(d: Dict) {
    && RequiredKeys <= d.Keys
    && d["amount"].Float?
    && d["reimbursable_amount"].Float?
  }

  /** Validating a normal record, whatever file and employee it is attributed to, returns it unchanged. */
  lemma ValidateNormal(d: Dict, filename: string, employeeName: string, parseFloat: FloatParser)
    requires IsNormal(d)
    ensures ValidateAnalysisResult(d, filename, employeeName, parseFloat) == Success(d)
  {
    var filled := SetDefaults(d, filename, employeeName);
    assert filled == d;
    assert filled["amount" := Float(d["amount"].x)]["reimbursable_amount" := Float(d["reimbursable_amount"].x)] == d;
  }

  /** Validation's output is normal. */
  lemma ValidateMakesNormal(d: Dict, filename: string, employeeName: string, parseFloat: FloatParser)
    requires ValidateAnalysisResult(d, filename, employeeName, parseFloat).Success?
    ensures IsNormal(ValidateAnalysisResult(d, filename, employeeName, parseFloat).value)
  {
    assert "amount" in RequiredKeys && "reimbursable_amount" in RequiredKeys;
  }

  /** Validation is idempotent: re-validating its own output (for any file and employee) changes nothing. */
  lemma ValidateIdempotent(
    d: Dict, filename: string, employeeName: string, filename': string, employeeName': string,
    parseFloat: FloatParser)
    requires ValidateAnalysisResult(d, filename, employeeName, parseFloat).Success?
    ensures var r := ValidateAnalysisResult(d, filename, employeeName, parseFloat).value;
            ValidateAnalysisResult(r, filename', employeeName', parseFloat) == Success(r)
  {
    ValidateMakesNormal(d, filename, employeeName, parseFloat);
    ValidateNormal(ValidateAnalysisResult(d, filename, employeeName, parseFloat).value, filename', employeeName', parseFloat);
  }

  /** An empty reply object is filled entirely with the defaults. */
  lemma ValidateEmpty(filename: string, employeeName: string, parseFloat: FloatParser)
    ensures var r := ValidateAnalysisResult(map[], filename, employeeName, parseFloat);
      && r.Success?
      && r.value["invoice_id"] == Str(filename)
      && r.value["employee_name"] == Str(employeeName)
      && r.value["vendor_name"] == Str("Unknown")
      && r.value["date"] == Null
      && r.value["category"] == Str("food")
      && r.value["status"] == Str("pending_review")
      && r.value["amount"] == Float(0.0)
      && r.value["reimbursable_amount"] == Float(0.0)
  {
    assert "invoice_id" in RequiredKeys && "employee_name" in RequiredKeys && "vendor_name" in RequiredKeys;
    assert "date" in RequiredKeys && "category" in RequiredKeys && "status" in RequiredKeys;
  }

  // ---------------------------------------------------------------------------
  // The fallback record: `_create_fallback_analysis`
  // ---------------------------------------------------------------------------

  const ManualReview := "Manual review required."

  function FallbackReasoning(error: string): string {
    "Could not analyze due to error: " + error + ". " + ManualReview
  }

  /** `_create_fallback_analysis` */
  function CreateFallbackAnalysis(filename: string, employeeName: string, error: string): (r: Dict)
    ensures IsNormal(r)
  {
    assert "amount" in RequiredKeys && "reimbursable_amount" in RequiredKeys;
    map[
      "invoice_id" := Str(filename),
      "employee_name" := Str(employeeName),
      "vendor_name" := Str("Unknown"),
      "date" := Null,
      "amount" := Float(0.0),
      "category" := Str("food"),
      "items" := Array([]),
      "status" := Str("pending_review"),
      "reimbursable_amount" := Float(0.0),
      "policy_violations" := Array([Str("Processing error: " + error)]),
      "reasoning" := Str(FallbackReasoning(error)),
      "contains_alcohol" := Bool(false),
      "submission_date_valid" := Bool(true)
    ]
  }

  /** The record the fallback dictionary stands for. */
  function FallbackRecord(filename: string, employeeName: string, error: string): InvoiceAnalysis {
    InvoiceAnalysis(filename, employeeName, Some("Unknown"), None, 0.0, Food, [], PendingReview, 0.0,
                    ["Processing error: " + error], FallbackReasoning(error), false, true)
  }

  /**
   * The fallback always builds a valid record: invoice id the file name, the given
   * employee, both amounts 0, pending review, exactly one "Processing error: ..." violation,
   * and reasoning that ends by asking for manual review.
   */
  lemma FallbackBuildsRecord(filename: string, employeeName: string, error: string)
    ensures AnalysisFromDict(CreateFallbackAnalysis(filename, employeeName, error))
      == Success(FallbackRecord(filename, employeeName, error))
    ensures var a := FallbackRecord(filename, employeeName, error);
      && a.invoiceId == filename && a.employeeName == employeeName
      && a.amount == 0.0 && a.reimbursableAmount == 0.0 && a.status == PendingReview
      && a.policyViolations == ["Processing error: " + error]
      && EndsWith(a.reasoning, "Manual review required.")
  {
    var a := FallbackRecord(filename, employeeName, error);
    assert StrsToValues(a.policyViolations) == [Str("Processing error: " + error)];
    assert AnalysisToDict(a) == CreateFallbackAnalysis(filename, employeeName, error);
    AnalysisRoundTrip(a);
    var reasoning := FallbackReasoning(error);
    assert reasoning[|reasoning| - |ManualReview|..] == ManualReview;
  }

  // ---------------------------------------------------------------------------
  // `analyze_invoice`
  // ---------------------------------------------------------------------------

  const JsonErrorPrefix := "JSON parsing error: "

  /**
   * The error text the fallback carries when `json.loads` raises: the first `except`
   * prefixes a `JSONDecodeError`, the catch-all passes anything else through as is.
   */
  function LoadFailureCause(e: LoadError): string {
    match e
    case JsonDecodeError(message) => JsonErrorPrefix + message
    case LoadRaised(message) => message
  }

  /** The `AttributeError` that `setdefault` on a parsed non-object raises. */
  function NotADictMessage(v: Value): string {
    "'" + PyTypeName(v) + "' object has no attribute 'setdefault'"
  }

  /**
   * `analyze_invoice`: one oracle call, then cleaning, parsing and validation; every
   * failure turns into the fallback record, so this is total and its result is always
   * normal.
   */
  function AnalyzeInvoice(
    oracle: Oracle, loads: JsonParser, parseFloat: FloatParser,
    invoiceText: string, filename: string, employeeName: string): (r: Dict)
    ensures IsNormal(r)
    // the oracle raised: the fallback names its message
    ensures oracle(InvoicePrompt(invoiceText, employeeName, filename)).Raised? ==>
      r == CreateFallbackAnalysis(filename, employeeName, oracle(InvoicePrompt(invoiceText, employeeName, filename)).cause)
    // the parser raised: a decode error is prefixed, anything else is passed through
    ensures var reply := oracle(InvoicePrompt(invoiceText, employeeName, filename));
      reply.Replied? && loads(PrepareReply(reply.text)).Failure? ==>
      var e := loads(PrepareReply(reply.text)).error;
      && (e.JsonDecodeError? ==> r == CreateFallbackAnalysis(filename, employeeName, JsonErrorPrefix + e.message))
      && (e.LoadRaised? ==> r == CreateFallbackAnalysis(filename, employeeName, e.message))
    // the reply parsed to something other than an object: `setdefault` raises
    ensures var reply := oracle(InvoicePrompt(invoiceText, employeeName, filename));
      reply.Replied? && loads(PrepareReply(reply.text)).Success? && !loads(PrepareReply(reply.text)).value.Object? ==>
      r == CreateFallbackAnalysis(filename, employeeName, NotADictMessage(loads(PrepareReply(reply.text)).value))
    // the reply parsed to an object: its validated form, or the fallback for the overflow
    ensures var reply := oracle(InvoicePrompt(invoiceText, employeeName, filename));
      reply.Replied? && loads(PrepareReply(reply.text)).Success? && loads(PrepareReply(reply.text)).value.Object? ==>
      var checked := ValidateAnalysisResult(loads(PrepareReply(reply.text)).value.fields, filename, employeeName, parseFloat);
      && (checked.Success? ==> r == checked.value)
      && (checked.Failure? ==> r == CreateFallbackAnalysis(filename, employeeName, checked.error))
  {
    match oracle(InvoicePrompt(invoiceText, employeeName, filename))
    case Raised(cause) => CreateFallbackAnalysis(filename, employeeName, cause)
    case Replied(text) =>
      match loads(PrepareReply(text))
      case Failure(e) => CreateFallbackAnalysis(filename, employeeName, LoadFailureCause(e))
      case Success(v) =>
        if !v.Object? then CreateFallbackAnalysis(filename, employeeName, NotADictMessage(v))
        else
          match ValidateAnalysisResult(v.fields, filename, employeeName, parseFloat)
          case Failure(e) => CreateFallbackAnalysis(filename, employeeName, e)
          case Success(result) =>
            ValidateMakesNormal(v.fields, filename, employeeName, parseFloat);
            result
  }

  /** A parser that raises on the cleaned reply makes the result the fallback naming what it raised. */
  lemma LoadFailureGivesFallback(
    oracle: Oracle, loads: JsonParser, parseFloat: FloatParser,
    invoiceText: string, filename: string, employeeName: string)
    requires oracle(InvoicePrompt(invoiceText, employeeName, filename)).Replied?
    requires loads(PrepareReply(oracle(InvoicePrompt(invoiceText, employeeName, filename)).text)).Failure?
    ensures AnalyzeInvoice(oracle, loads, parseFloat, invoiceText, filename, employeeName)
      == CreateFallbackAnalysis(filename, employeeName,
           LoadFailureCause(loads(PrepareReply(oracle(InvoicePrompt(invoiceText, employeeName, filename)).text)).error))
  {
  }

  /**
   * A reply that is a "```json" fence around an object the parser reads and validation
   * accepts comes back as exactly that validated object.
   */
  lemma FencedObjectReplyIsValidated(
    oracle: Oracle, loads: JsonParser, parseFloat: FloatParser,
    invoiceText: string, filename: string, employeeName: string, payload: string, fields: Dict)
    requires |payload| >= 2 && payload[0] == '{' && payload[|payload| - 1] == '}'
    requires oracle(InvoicePrompt(invoiceText, employeeName, filename)) == Replied("```json" + payload + "```")
    requires loads(payload) == Success(Object(fields))
    requires ValidateAnalysisResult(fields, filename, employeeName, parseFloat).Success?
    ensures AnalyzeInvoice(oracle, loads, parseFloat, invoiceText, filename, employeeName)
      == ValidateAnalysisResult(fields, filename, employeeName, parseFloat).value
  {
    PrepareFencedObject(payload);
  }

  /**
   * Whatever the oracle and the parser do, the result of `analyze_invoice` is already
   * validated: validating it again changes nothing.
   */
  lemma AnalyzeInvoiceIsValidated(
    oracle: Oracle, loads: JsonParser, parseFloat: FloatParser,
    invoiceText: string, filename: string, employeeName: string)
    ensures var r := AnalyzeInvoice(oracle, loads, parseFloat, invoiceText, filename, employeeName);
      ValidateAnalysisResult(r, filename, employeeName, parseFloat) == Success(r)
  {
    var r := AnalyzeInvoice(oracle, loads, parseFloat, invoiceText, filename, employeeName);
    ValidateNormal(r, filename, employeeName, parseFloat);
  }

  // ---------------------------------------------------------------------------
  // `generate_chat_response`
  // ---------------------------------------------------------------------------

  const MaxContextDocuments := 5
  const NoDocumentsText := "No relevant documents found."
  const ApologyPrefix := "I apologize, but I encountered an error: "

  /** The context block of the chat prompt: the first five documents, blank-line separated. */
  function ChatContext(docs: seq<string>): (r: string)
    ensures docs == [] ==> r == NoDocumentsText
    ensures 0 < |docs| <= MaxContextDocuments ==> r == Join("\n\n", docs)
  {
    if docs == [] then NoDocumentsText
    else Join("\n\n", if |docs| <= MaxContextDocuments then docs else docs[..MaxContextDocuments])
  }

  /** Documents after the fifth never reach the prompt. */
  lemma ContextIgnoresExtraDocuments(docs: seq<string>, extra: seq<string>)
    requires |docs| >= MaxContextDocuments
    ensures ChatContext(docs + extra) == ChatContext(docs[..MaxContextDocuments])
  {
    var all := docs + extra;
    assert all[..MaxContextDocuments] == docs[..MaxContextDocuments];
    if |all| <= MaxContextDocuments {
      assert all == docs[..MaxContextDocuments];
    }
  }

  /** `generate_chat_response`: the stripped reply, or an apology naming the failure. */
  function GenerateChatResponse(oracle: Oracle, query: string, docs: seq<string>): (r: string)
    ensures var reply := oracle(ChatPrompt(ChatContext(docs), query));
      && (reply.Raised? ==> r == ApologyPrefix + reply.cause && StartsWith(r, ApologyPrefix))
      && (reply.Replied? ==> r == Strip(reply.text))
  {
    match oracle(ChatPrompt(ChatContext(docs), query))
    case Raised(cause) =>
      assert (ApologyPrefix + cause)[..|ApologyPrefix|] == ApologyPrefix;
      ApologyPrefix + cause
    case Replied(text) => Strip(text)
  }
}
