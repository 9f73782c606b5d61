/**
 * The domain vocabulary of `app/models/invoice.py`: the two enums, the line-item and
 * analysis records, and the request/response shapes. `AnalysisFromDict` is the
 * keyword construction `InvoiceAnalysis(**d)` that the batch analyzer performs on a raw
 * record; `AnalysisToDict` is its inverse.
 */
module Invoice {
  import opened Wrappers
  import opened Json

  datatype ExpenseCategory = Food | Travel | Accommodation | Transport {
    /** The enum member's string value. */
    function Value(): string {
      match this
      case Food => "food"
      case Travel => "travel"
      case Accommodation => "accommodation"
      case Transport => "transport"
    }
  }

  datatype ReimbursementStatus = Approved | Declined | PartialApproved | PendingReview {
    /** The enum member's string value. */
    function Value(): string {
      match this
      case Approved => "approved"
      case Declined => "declined"
      case PartialApproved => "partial_approved"
      case PendingReview => "pending_review"
    }
  }

  /** `ExpenseCategory(s)`: the member whose value is `s`, if there is one. */
  function ParseCategory(s: string): (r: Option<ExpenseCategory>)
    ensures r.Some? ==> r.value.Value() == s
    ensures r.None? ==> forall c: ExpenseCategory :: c.Value() != s
  {
    if s == "food" then Some(Food)
    else if s == "travel" then Some(Travel)
    else if s == "accommodation" then Some(Accommodation)
    else if s == "transport" then Some(Transport)
    else None
  }

  /** `ReimbursementStatus(s)`: the member whose value is `s`, if there is one. */
  function ParseStatus(s: string): (r: Option<ReimbursementStatus>)
    ensures r.Some? ==> r.value.Value() == s
    ensures r.None? ==> forall t: ReimbursementStatus :: t.Value() != s
  {
    if s == "approved" then Some(Approved)
    else if s == "declined" then Some(Declined)
    else if s == "partial_approved" then Some(PartialApproved)
    else if s == "pending_review" then Some(PendingReview)
    else None
  }

  /** Every category is recovered from its value, so the four values are distinct. */
  lemma CategoryRoundTrip(c: ExpenseCategory)
    ensures ParseCategory(c.Value()) == Some(c)
  {
  }

  /** Every status is recovered from its value, so the four values are distinct. */
  lemma StatusRoundTrip(t: ReimbursementStatus)
    ensures ParseStatus(t.Value()) == Some(t)
  {
  }

  datatype InvoiceItem = InvoiceItem(description: string, quantity: int, unitPrice: real, amount: real)

  const DefaultItemDescription := "Unknown Item"
  const DefaultItemQuantity := 1
  const DefaultVendorName := "Unknown Vendor"

  /**
   * One analysed invoice. `vendorName` and `date` are `Optional[str]` in the source, so
   * `None` is a legal value for both.
   */
  datatype InvoiceAnalysis = InvoiceAnalysis(
    invoiceId: string,
    employeeName: string,
    vendorName: Option<string>,
    date: Option<string>,
    amount: real,
    category: ExpenseCategory,
    items: seq<InvoiceItem>,
    status: ReimbursementStatus,
    reimbursableAmount: real,
    policyViolations: seq<string>,
    reasoning: string,
    containsAlcohol: bool,
    submissionDateValid: bool)

  /** `InvoiceAnalysis(...)` given only the seven required fields; the declared defaults fill the rest. */
  function NewAnalysis(
    invoiceId: string, employeeName: string, amount: real, category: ExpenseCategory,
    status: ReimbursementStatus, reimbursableAmount: real, reasoning: string): InvoiceAnalysis
  {
    InvoiceAnalysis(invoiceId, employeeName, Some(DefaultVendorName), None, amount, category, [],
                    status, reimbursableAmount, [], reasoning, false, true)
  }

  /**
   * The `summary` dictionary of a response. The failure path of the batch analyzer returns
   * an empty dictionary instead, which `AnalysisResponse.summary == None` stands for.
   */
  datatype Summary = Summary(
    totalInvoices: nat,
    approved: nat,
    declined: nat,
    partialApproved: nat,
    totalAmount: real,
    totalReimbursable: real,
    complianceRate: real)

  datatype AnalysisResponse = AnalysisResponse(
    analysisResults: seq<InvoiceAnalysis>,
    summary: Option<Summary>,
    processingTime: real,
    success: bool,
    message: string)

  /** A chat request; an absent `conversation_id` is `None`. */
  datatype ChatRequest = ChatRequest(query: string, conversationId: Option<string>)

  /** A chat reply; unlike the request, it always carries a conversation id. */
  datatype ChatResponse = ChatResponse(
    response: string,
    sources: seq<string>,
    conversationId: string,
    success: bool)

  // ---------------------------------------------------------------------------
  // Keyword construction from a raw dictionary (the validation the record classes do).
  // Extra keys are ignored; an absent key takes the field's default, or is an error
  // for a required field; a present key must hold a value of the field's type.
  // ---------------------------------------------------------------------------

  function StrField(d: Dict, key: string, default: Option<string>): Result<string, string> {
    if key !in d then (if default.Some? then Success(default.value) else Failure(key + ": Field required"))
    else match d[key]
      case Str(s) => Success(s)
      case _ => Failure(key + ": Input should be a valid string")
  }

  function OptionalStrField(d: Dict, key: string, default: Option<string>): Result<Option<string>, string> {
    if key !in d then Success(default)
    else match d[key]
      case Null => Success(None)
      case Str(s) => Success(Some(s))
      case _ => Failure(key + ": Input should be a valid string")
  }

  function RealField(d: Dict, key: string, default: Option<real>): Result<real, string> {
    if key !in d then (if default.Some? then Success(default.value) else Failure(key + ": Field required"))
    else match d[key]
      case Int(i) => Success(i as real)
      case Float(x) => Success(x)
      case _ => Failure(key + ": Input should be a valid number")
  }

  function IntField(d: Dict, key: string, default: int): Result<int, string> {
    if key !in d then Success(default)
    else match d[key]
      case Int(i) => Success(i)
      case _ => Failure(key + ": Input should be a valid integer")
  }

  function BoolField(d: Dict, key: string, default: bool): Result<bool, string> {
    if key !in d then Success(default)
    else match d[key]
      case Bool(b) => Success(b)
      case _ => Failure(key + ": Input should be a valid boolean")
  }

  function CategoryField(d: Dict, key: string): Result<ExpenseCategory, string> {
    var s :- StrField(d, key, None);
    match ParseCategory(s)
    case Some(c) => Success(c)
    case None => Failure(key + ": Input should be 'food', 'travel', 'accommodation' or 'transport'")
  }

  function StatusField(d: Dict, key: string): Result<ReimbursementStatus, string> {
    var s :- StrField(d, key, None);
    match ParseStatus(s)
    case Some(t) => Success(t)
    case None => Failure(key + ": Input should be 'approved', 'declined', 'partial_approved' or 'pending_review'")
  }

  function StrsFromValues(vs: seq<Value>): Result<seq<string>, string> {
    if vs == [] then Success([])
    else
      var rest :- StrsFromValues(vs[1..]);
      match vs[0]
      case Str(s) => Success([s] + rest)
      case _ => Failure("list item: Input should be a valid string")
  }

  function StrListField(d: Dict, key: string): Result<seq<string>, string> {
    if key !in d then Success([])
    else match d[key]
      case Array(vs) => StrsFromValues(vs)
      case _ => Failure(key + ": Input should be a valid list")
  }

  /** `InvoiceItem(**v)` for one element of the `items` list. */
  function ItemFromValue(v: Value): Result<InvoiceItem, string> {
    match v
    case Object(d) =>
      var description :- StrField(d, "description", Some(DefaultItemDescription));
      var quantity :- IntField(d, "quantity", DefaultItemQuantity);
      var unitPrice :- RealField(d, "unit_price", Some(0.0));
      var amount :- RealField(d, "amount", Some(0.0));
      Success(InvoiceItem(description, quantity, unitPrice, amount))
    case _ => Failure("items: Input should be a valid dictionary")
  }

  function ItemsFromValues(vs: seq<Value>): Result<seq<InvoiceItem>, string> {
    if vs == [] then Success([])
    else
      var first :- ItemFromValue(vs[0]);
      var rest :- ItemsFromValues(vs[1..]);
      Success([first] + rest)
  }

  function ItemsField(d: Dict, key: string): Result<seq<InvoiceItem>, string> {
    if key !in d then Success([])
    else match d[key]
      case Array(vs) => ItemsFromValues(vs)
      case _ => Failure(key + ": Input should be a valid list")
  }

  /** The identifying half of the fields: who, where, when, how much and what was bought. */
  type Header = (string, string, Option<string>, Option<string>, real, ExpenseCategory, seq<InvoiceItem>)

  /** The policy half of the fields: the decision and its grounds. */
  type Verdict = (ReimbursementStatus, real, seq<string>, string, bool, bool)

  function HeaderFromDict(d: Dict): Result<Header, string> {
    var invoiceId :- StrField(d, "invoice_id", None);
    var employeeName :- StrField(d, "employee_name", None);
    var vendorName :- OptionalStrField(d, "vendor_name", Some(DefaultVendorName));
    var date :- OptionalStrField(d, "date", None);
    var amount :- RealField(d, "amount", None);
    var category :- CategoryField(d, "category");
    var items :- ItemsField(d, "items");
    Success((invoiceId, employeeName, vendorName, date, amount, category, items))
  }

  function VerdictFromDict(d: Dict): Result<Verdict, string> {
    var status :- StatusField(d, "status");
    var reimbursableAmount :- RealField(d, "reimbursable_amount", None);
    var policyViolations :- StrListField(d, "policy_violations");
    var reasoning :- StrField(d, "reasoning", None);
    var containsAlcohol :- BoolField(d, "contains_alcohol", false);
    var submissionDateValid :- BoolField(d, "submission_date_valid", true);
    Success((status, reimbursableAmount, policyViolations, reasoning, containsAlcohol, submissionDateValid))
  }

  /** The seven fields an `InvoiceAnalysis` cannot be built without. */
  const RequiredFields: set<string> := {
    "invoice_id", "employee_name", "amount", "category", "status", "reimbursable_amount", "reasoning"}

  /** `InvoiceAnalysis(**d)`: the record, or the message of a validation error. */
  function AnalysisFromDict(d: Dict): Result<InvoiceAnalysis, string> {
    var h :- HeaderFromDict(d);
    var v :- VerdictFromDict(d);
    Success(InvoiceAnalysis(h.0, h.1, h.2, h.3, h.4, h.5, h.6, v.0, v.1, v.2, v.3, v.4, v.5))
  }

  /** Construction fails whenever one of the seven required fields is missing. */
  lemma MissingRequiredFieldRejected(d: Dict)
    requires !(RequiredFields <= d.Keys)
    ensures AnalysisFromDict(d).Failure?
  {
    if HeaderFromDict(d).Success? {
      assert "invoice_id" in d && "employee_name" in d && "amount" in d && "category" in d;
    }
  }

  /** A built header holds the strings the dictionary gave for the ids and the category. */
  lemma HeaderReadsFields(d: Dict)
    requires HeaderFromDict(d).Success?
    ensures var h := HeaderFromDict(d).value;
      d["invoice_id"] == Str(h.0) && d["employee_name"] == Str(h.1) && d["category"] == Str(h.5.Value())
  {
    var c := CategoryField(d, "category").value;
    assert ParseCategory(d["category"].s) == Some(c);
  }

  /** A built verdict holds the strings the dictionary gave for the status and the reasoning. */
  lemma VerdictReadsFields(d: Dict)
    requires VerdictFromDict(d).Success?
    ensures var v := VerdictFromDict(d).value;
      d["status"] == Str(v.0.Value()) && d["reasoning"] == Str(v.3)
  {
    var t := StatusField(d, "status").value;
    assert ParseStatus(d["status"].s) == Some(t);
  }

  /**
   * A record built from a dictionary holds the strings the dictionary gave for the
   * identifying, enum and reasoning fields.
   */
  lemma BuiltRecordReadsFields(d: Dict)
    requires AnalysisFromDict(d).Success?
    ensures var a := AnalysisFromDict(d).value;
      && d["invoice_id"] == Str(a.invoiceId)
      && d["employee_name"] == Str(a.employeeName)
      && d["category"] == Str(a.category.Value())
      && d["status"] == Str(a.status.Value())
      && d["reasoning"] == Str(a.reasoning)
  {
    HeaderReadsFields(d);
    VerdictReadsFields(d);
  }

  function OptionalStrValue(o: Option<string>): Value {
    match o
    case Some(s) => Str(s)
    case None => Null
  }

  function ItemToValue(item: InvoiceItem): Value {
    Object(map["description" := Str(item.description), "quantity" := Int(item.quantity),
               "unit_price" := Float(item.unitPrice), "amount" := Float(item.amount)])
  }

  function ItemsToValues(items: seq<InvoiceItem>): (vs: seq<Value>)
    ensures |vs| == |items|
  {
    if items == [] then [] else [ItemToValue(items[0])] + ItemsToValues(items[1..])
  }

  function StrsToValues(ss: seq<string>): (vs: seq<Value>)
    ensures |vs| == |ss|
  {
    if ss == [] then [] else [Str(ss[0])] + StrsToValues(ss[1..])
  }

  /** The record as a raw dictionary with its thirteen fields: the inverse of keyword construction. */
  function AnalysisToDict(a: InvoiceAnalysis): Dict {
    map[
      "invoice_id" := Str(a.invoiceId),
      "employee_name" := Str(a.employeeName),
      "vendor_name" := OptionalStrValue(a.vendorName),
      "date" := OptionalStrValue(a.date),
      "amount" := Float(a.amount),
      "category" := Str(a.category.Value()),
      "items" := Array(ItemsToValues(a.items)),
      "status" := Str(a.status.Value()),
      "reimbursable_amount" := Float(a.reimbursableAmount),
      "policy_violations" := Array(StrsToValues(a.policyViolations)),
      "reasoning" := Str(a.reasoning),
      "contains_alcohol" := Bool(a.containsAlcohol),
      "submission_date_valid" := Bool(a.submissionDateValid)
    ]
  }

  lemma ItemRoundTrip(item: InvoiceItem)
    ensures ItemFromValue(ItemToValue(item)) == Success(item)
  {
    var d := ItemToValue(item).fields;
    assert StrField(d, "description", Some(DefaultItemDescription)) == Success(item.description);
    assert IntField(d, "quantity", DefaultItemQuantity) == Success(item.quantity);
  }

  lemma {:induction false} ItemsRoundTrip(items: seq<InvoiceItem>)
    ensures ItemsFromValues(ItemsToValues(items)) == Success(items)
  {
    if items != [] {
      var vs := ItemsToValues(items);
      assert vs[1..] == ItemsToValues(items[1..]);
      ItemRoundTrip(items[0]);
      ItemsRoundTrip(items[1..]);
      assert [items[0]] + items[1..] == items;
    }
  }

  lemma {:induction false} StrsRoundTrip(ss: seq<string>)
    ensures StrsFromValues(StrsToValues(ss)) == Success(ss)
  {
    if ss != [] {
      var vs := StrsToValues(ss);
      assert vs[1..] == StrsToValues(ss[1..]);
      StrsRoundTrip(ss[1..]);
      assert [ss[0]] + ss[1..] == ss;
    }
  }

  lemma IdentityFields(a: InvoiceAnalysis)
    ensures StrField(AnalysisToDict(a), "invoice_id", None) == Success(a.invoiceId)
    ensures StrField(AnalysisToDict(a), "employee_name", None) == Success(a.employeeName)
    ensures OptionalStrField(AnalysisToDict(a), "vendor_name", Some(DefaultVendorName)) == Success(a.vendorName)
  {
  }

  lemma PurchaseFields(a: InvoiceAnalysis)
    ensures OptionalStrField(AnalysisToDict(a), "date", None) == Success(a.date)
    ensures RealField(AnalysisToDict(a), "amount", None) == Success(a.amount)
    ensures CategoryField(AnalysisToDict(a), "category") == Success(a.category)
  {
    CategoryRoundTrip(a.category);
  }

  lemma ItemsFieldRoundTrip(a: InvoiceAnalysis)
    ensures ItemsField(AnalysisToDict(a), "items") == Success(a.items)
  {
    ItemsRoundTrip(a.items);
  }

  lemma StatusFieldRoundTrip(a: InvoiceAnalysis)
    ensures StatusField(AnalysisToDict(a), "status") == Success(a.status)
  {
    StatusRoundTrip(a.status);
  }

  lemma DecisionFields(a: InvoiceAnalysis)
    ensures RealField(AnalysisToDict(a), "reimbursable_amount", None) == Success(a.reimbursableAmount)
    ensures StrListField(AnalysisToDict(a), "policy_violations") == Success(a.policyViolations)
  {
    StrsRoundTrip(a.policyViolations);
  }

  lemma FlagFields(a: InvoiceAnalysis)
    ensures StrField(AnalysisToDict(a), "reasoning", None) == Success(a.reasoning)
    ensures BoolField(AnalysisToDict(a), "contains_alcohol", false) == Success(a.containsAlcohol)
    ensures BoolField(AnalysisToDict(a), "submission_date_valid", true) == Success(a.submissionDateValid)
  {
  }

  lemma HeaderRoundTrip(a: InvoiceAnalysis)
    ensures HeaderFromDict(AnalysisToDict(a))
      == Success((a.invoiceId, a.employeeName, a.vendorName, a.date, a.amount, a.category, a.items))
  {
    IdentityFields(a);
    PurchaseFields(a);
    ItemsFieldRoundTrip(a);
  }

  lemma VerdictRoundTrip(a: InvoiceAnalysis)
    ensures VerdictFromDict(AnalysisToDict(a))
      == Success((a.status, a.reimbursableAmount, a.policyViolations, a.reasoning,
                  a.containsAlcohol, a.submissionDateValid))
  {
    StatusFieldRoundTrip(a);
    DecisionFields(a);
    FlagFields(a);
  }

  /** Constructing a record from its own dictionary gives the record back. */
  lemma AnalysisRoundTrip(a: InvoiceAnalysis)
    ensures AnalysisFromDict(AnalysisToDict(a)) == Success(a)
  {
    HeaderRoundTrip(a);
    VerdictRoundTrip(a);
  }

  /** An empty `items` entry builds `InvoiceItem()`: every field takes its declared default. */
  lemma ItemDefaults()
    ensures ItemFromValue(Object(map[])) == Success(InvoiceItem("Unknown Item", 1, 0.0, 0.0))
  {
  }

  /** The dictionary that holds exactly the seven required fields of a record. */
  function RequiredOnlyDict(
    invoiceId: string, employeeName: string, amount: real, category: ExpenseCategory,
    status: ReimbursementStatus, reimbursableAmount: real, reasoning: string): Dict
  {
    map[
      "invoice_id" := Str(invoiceId), "employee_name" := Str(employeeName),
      "amount" := Float(amount), "category" := Str(category.Value()),
      "status" := Str(status.Value()), "reimbursable_amount" := Float(reimbursableAmount),
      "reasoning" := Str(reasoning)]
  }

  lemma RequiredOnlyHeader(
    invoiceId: string, employeeName: string, amount: real, category: ExpenseCategory,
    status: ReimbursementStatus, reimbursableAmount: real, reasoning: string)
    ensures HeaderFromDict(RequiredOnlyDict(invoiceId, employeeName, amount, category, status, reimbursableAmount, reasoning))
      == Success((invoiceId, employeeName, Some(DefaultVendorName), None, amount, category, []))
  {
    var d := RequiredOnlyDict(invoiceId, employeeName, amount, category, status, reimbursableAmount, reasoning);
    CategoryRoundTrip(category);
    assert StrField(d, "invoice_id", None) == Success(invoiceId);
    assert StrField(d, "employee_name", None) == Success(employeeName);
    assert CategoryField(d, "category") == Success(category);
  }

  lemma RequiredOnlyVerdict(
    invoiceId: string, employeeName: string, amount: real, category: ExpenseCategory,
    status: ReimbursementStatus, reimbursableAmount: real, reasoning: string)
    ensures VerdictFromDict(RequiredOnlyDict(invoiceId, employeeName, amount, category, status, reimbursableAmount, reasoning))
      == Success((status, reimbursableAmount, [], reasoning, false, true))
  {
    var d := RequiredOnlyDict(invoiceId, employeeName, amount, category, status, reimbursableAmount, reasoning);
    StatusRoundTrip(status);
    assert StatusField(d, "status") == Success(status);
    assert RealField(d, "reimbursable_amount", None) == Success(reimbursableAmount);
  }

  /**
   * A dictionary holding only the seven required fields builds the same record as the
   * required-fields constructor: vendor "Unknown Vendor", no date, no items or violations,
   * no alcohol, a valid submission date.
   */
  lemma AnalysisDefaults(
    invoiceId: string, employeeName: string, amount: real, category: ExpenseCategory,
    status: ReimbursementStatus, reimbursableAmount: real, reasoning: string)
    ensures AnalysisFromDict(RequiredOnlyDict(invoiceId, employeeName, amount, category, status, reimbursableAmount, reasoning))
      == Success(NewAnalysis(invoiceId, employeeName, amount, category, status, reimbursableAmount, reasoning))
    ensures NewAnalysis(invoiceId, employeeName, amount, category, status, reimbursableAmount, reasoning).vendorName
      == Some("Unknown Vendor")
  {
    RequiredOnlyHeader(invoiceId, employeeName, amount, category, status, reimbursableAmount, reasoning);
    RequiredOnlyVerdict(invoiceId, employeeName, amount, category, status, reimbursableAmount, reasoning);
  }

  /** A category outside the enum makes the construction fail. */
  lemma UnknownCategoryRejected(d: Dict)
    requires "category" in d && d["category"].Str? && ParseCategory(d["category"].s).None?
    ensures AnalysisFromDict(d).Failure?
  {
  }

  /** A status outside the enum makes the construction fail. */
  lemma UnknownStatusRejected(d: Dict)
    requires "status" in d && d["status"].Str? && ParseStatus(d["status"].s).None?
    ensures AnalysisFromDict(d).Failure?
  {
  }
}
