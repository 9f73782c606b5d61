/**
 * `app/services/pdf_processor.py`: the two-strategy text extraction with its quality
 * threshold, and the walk over an archive's entries. The two PDF libraries and the zip
 * decoder are inputs: per-page results and a list of named entries.
 */
module PdfProcessor {
  import opened Wrappers
  import opened PyStr

  newtype Byte = x: int | 0 <= x < 256

  type Bytes = seq<Byte>

  /**
   * What one PDF library makes of a document: per page, its text (`None` where the page
   * yields none), or `Crashed` when opening or reading raised.
   */
  datatype PageTexts = Crashed | Pages(texts: seq<Option<string>>)

  /** A PDF text-extraction library (pdfplumber's layout extraction, pypdf's stream extraction). */
  type Extractor = Bytes -> PageTexts

  predicate HasText(t: Option<string>) {
    t.Some? && t.value != []
  }

  /**
   * The page texts that survive `if page_text:`, in page order: every page with text is
   * kept, nothing empty is. `PagesWithTextConcat` and `PagesWithTextOfPage` pin the order.
   */
  function PagesWithText(texts: seq<Option<string>>): (r: seq<string>)
    ensures |r| <= |texts|
    ensures forall k :: 0 <= k < |r| ==> r[k] != []
    ensures forall k :: 0 <= k < |texts| && HasText(texts[k]) ==> texts[k].value in r
    ensures r == [] <==> forall k :: 0 <= k < |texts| ==> !HasText(texts[k])
  {
    if texts == [] then []
    else
      var rest := PagesWithText(texts[1..]);
      assert forall k :: 1 <= k < |texts| ==> texts[k] == texts[1..][k - 1];
      if HasText(texts[0]) then [texts[0].value] + rest else rest
  }

  /** One page contributes its text when it has some, and nothing otherwise. */
  lemma PagesWithTextOfPage(t: Option<string>)
    ensures PagesWithText([t]) == (if HasText(t) then [t.value] else [])
  {
    assert [t][1..] == [];
  }

  /** Filtering a run of pages is filtering each part and concatenating, in page order. */
  lemma {:induction false} PagesWithTextConcat(a: seq<Option<string>>, b: seq<Option<string>>)
    ensures PagesWithText(a + b) == PagesWithText(a) + PagesWithText(b)
  {
    if a != [] {
      assert (a + b)[0] == a[0];
      assert (a + b)[1..] == a[1..] + b;
      PagesWithTextConcat(a[1..], b);
    } else {
      assert a + b == b;
    }
  }

  /**
   * `_extract_with_pdfplumber` and `_extract_with_pypdf`: the non-empty page texts joined by
   * newlines, or "" when the library raised. Empty exactly when no page had text;
   * `StrategyTextOfPage` and `StrategyTextConcat` pin the joined text.
   */
  function StrategyText(o: PageTexts): (r: string)
    ensures o.Crashed? ==> r == []
    ensures o.Pages? ==> (r == [] <==> forall k :: 0 <= k < |o.texts| ==> !HasText(o.texts[k]))
  {
    match o
    case Crashed => []
    case Pages(texts) => Join("\n", PagesWithText(texts))
  }

  /** A document of one page yields that page's text, or "" when it has none. */
  lemma StrategyTextOfPage(t: Option<string>)
    ensures StrategyText(Pages([t])) == (if HasText(t) then t.value else [])
  {
    PagesWithTextOfPage(t);
  }

  /**
   * The text of a run of pages is the texts of its two parts joined by one newline, or
   * just one of them when the other part has no text.
   */
  lemma StrategyTextConcat(a: seq<Option<string>>, b: seq<Option<string>>)
    ensures var x, y := StrategyText(Pages(a)), StrategyText(Pages(b));
      StrategyText(Pages(a + b)) == (if x == [] then y else if y == [] then x else x + "\n" + y)
  {
    PagesWithTextConcat(a, b);
    var p, q := PagesWithText(a), PagesWithText(b);
    if p == [] {
      assert p + q == q;
    } else if q == [] {
      assert p + q == p;
    } else {
      JoinConcat("\n", p, q);
    }
  }

  /** When no page text holds a newline, splitting the joined text on newlines gives the pages back. */
  lemma StrategyTextSplitsIntoPages(texts: seq<Option<string>>)
    requires forall k :: 0 <= k < |texts| && texts[k].Some? ==> '\n' !in texts[k].value
    requires exists k :: 0 <= k < |texts| && HasText(texts[k])
    ensures SplitOn(StrategyText(Pages(texts)), '\n') == PagesWithText(texts)
  {
    var pages := PagesWithText(texts);
    PagesComeFromTexts(texts);
    forall k, j | 0 <= k < |pages| && 0 <= j < |pages[k]| ensures pages[k][j] != '\n' {
      var m :| 0 <= m < |texts| && texts[m].Some? && texts[m].value == pages[k];
      assert pages[k][j] in texts[m].value;
    }
    SplitJoin(pages, '\n');
  }

  lemma {:induction false} PagesComeFromTexts(texts: seq<Option<string>>)
    ensures forall k :: 0 <= k < |PagesWithText(texts)| ==>
      exists m :: 0 <= m < |texts| && texts[m].Some? && texts[m].value == PagesWithText(texts)[k]
  {
    if texts != [] {
      PagesComeFromTexts(texts[1..]);
      var rest := PagesWithText(texts[1..]);
      var pages := PagesWithText(texts);
      var shift := if HasText(texts[0]) then 1 else 0;
      assert pages == (if HasText(texts[0]) then [texts[0].value] else []) + rest;
      forall k | 0 <= k < |pages|
        ensures exists m :: 0 <= m < |texts| && texts[m].Some? && texts[m].value == pages[k]
      {
        if k < shift {
          assert 0 < |texts| && texts[0].Some? && texts[0].value == pages[k];
        } else {
          assert pages[k] == rest[k - shift];
          var m :| 0 <= m < |texts[1..]| && texts[1..][m].Some? && texts[1..][m].value == rest[k - shift];
          assert texts[m + 1] == texts[1..][m];
          assert 0 <= m + 1 < |texts| && texts[m + 1].Some? && texts[m + 1].value == pages[k];
        }
      }
      assert forall k :: 0 <= k < |pages| ==>
        exists m :: 0 <= m < |texts| && texts[m].Some? && texts[m].value == pages[k];
    } else {
      assert PagesWithText(texts) == [];
    }
  }

  const MinUsableLength := 20
  const NoTextSentinel := "No readable text found"

  /** `text and len(text.strip()) > 20` */
  predicate Usable(text: string) {
    |Strip(text)| > MinUsableLength
  }

  /**
   * `extract_text_from_pdf`: the layout text if it is usable; else the stream text if
   * usable; else whatever the stream text is, or the sentinel when that is empty. Never
   * empty.
   */
  function ExtractTextFromPdf(layout: Extractor, stream: Extractor, content: Bytes): (r: string)
    ensures r != []
    ensures Usable(StrategyText(layout(content))) ==> r == StrategyText(layout(content))
    ensures !Usable(StrategyText(layout(content))) ==>
      r == (if StrategyText(stream(content)) != [] then StrategyText(stream(content)) else NoTextSentinel)
  {
    var first := StrategyText(layout(content));
    if Usable(first) then first
    else
      var second := StrategyText(stream(content));
      if Usable(second) then second
      else if second != [] then second
      else NoTextSentinel
  }

  /**
   * Text from the layout strategy that falls short of the threshold is discarded: the
   * result is then the same as if that strategy had produced nothing.
   */
  lemma ShortLayoutTextDiscarded(layout: Extractor, stream: Extractor, content: Bytes)
    requires !Usable(StrategyText(layout(content)))
    ensures ExtractTextFromPdf(layout, stream, content) == ExtractTextFromPdf(_ => Crashed, stream, content)
  {
  }

  // ---------------------------------------------------------------------------
  // Archives: `process_zip_file`
  // ---------------------------------------------------------------------------

  /** What `zip_file.read(name)` gives: the entry's bytes, or the message of what it raised. */
  datatype ReadOutcome = Read(content: Bytes) | ReadFailed(cause: string)

  datatype ZipEntry = ZipEntry(name: string, data: ReadOutcome)

  /** An archive blob: one that cannot be opened, or its entries in directory order. */
  datatype Archive = Unopenable(cause: string) | Opened(entries: seq<ZipEntry>)

  /** `zip_file.namelist()` */
  function Namelist(entries: seq<ZipEntry>): (names: seq<string>)
    ensures |names| == |entries|
    ensures forall k :: 0 <= k < |entries| ==> names[k] == entries[k].name
  {
    seq(|entries|, k requires 0 <= k < |entries| => entries[k].name)
  }

  /**
   * `zip_file.read(name)`: a name that occurs more than once resolves to its last entry;
   * a name that is not there raises `KeyError`.
   */
  function ReadByName(entries: seq<ZipEntry>, name: string): ReadOutcome {
    if entries == [] then ReadFailed("There is no item named '" + name + "' in the archive")
    else if entries[|entries| - 1].name == name then entries[|entries| - 1].data
    else ReadByName(entries[..|entries| - 1], name)
  }

  /** The data `read` hands back for a name present in the archive is that of its last entry. */
  lemma {:induction false} ReadByNameFindsLastEntry(entries: seq<ZipEntry>, name: string, m: nat)
    requires m < |entries| && entries[m].name == name
    requires forall j :: m < j < |entries| ==> entries[j].name != name
    ensures ReadByName(entries, name) == entries[m].data
  {
    if m < |entries| - 1 {
      var init := entries[..|entries| - 1];
      assert init[m] == entries[m];
      forall j | m < j < |init| ensures init[j].name != name {
        assert init[j] == entries[j];
      }
      ReadByNameFindsLastEntry(init, name, m);
    }
  }

  /** Reading a name no entry carries fails with `KeyError`'s message. */
  lemma {:induction false} ReadByNameMissing(entries: seq<ZipEntry>, name: string)
    requires forall k :: 0 <= k < |entries| ==> entries[k].name != name
    ensures ReadByName(entries, name) == ReadFailed("There is no item named '" + name + "' in the archive")
  {
    if entries != [] {
      var init := entries[..|entries| - 1];
      forall k | 0 <= k < |init| ensures init[k].name != name {
        assert init[k] == entries[k];
      }
      ReadByNameMissing(init, name);
    }
  }

  const PdfSuffix := ".pdf"
  const MacMetadataPrefix := "__MACOSX"

  /** `filename.lower().endswith('.pdf') and not filename.startswith('__MACOSX')` */
  predicate IsEligibleEntry(name: string) {
    EndsWith(Lower(name), PdfSuffix) && !StartsWith(name, MacMetadataPrefix)
  }

  /**
   * An entry is processed exactly when its last four characters spell ".pdf" in any mix of
   * cases and it does not start with "__MACOSX" (compared case-sensitively).
   */
  lemma EligibleEntryIff(name: string)
    ensures IsEligibleEntry(name) <==>
      && |name| >= 4
      && name[|name| - 4] == '.'
      && (name[|name| - 3] == 'p' || name[|name| - 3] == 'P')
      && (name[|name| - 2] == 'd' || name[|name| - 2] == 'D')
      && (name[|name| - 1] == 'f' || name[|name| - 1] == 'F')
      && !(|name| >= 8 && name[..8] == "__MACOSX")
  {
    var low := Lower(name);
    if |name| >= 4 {
      var n := |name|;
      calc <==> {
        EndsWith(low, PdfSuffix);
        low[n - 4..] == ".pdf";
        low[n - 4] == '.' && low[n - 3] == 'p' && low[n - 2] == 'd' && low[n - 1] == 'f';
      }
    }
  }

  const ErrorProcessingPrefix := "Error processing "

  /** The text stored for an eligible entry: its extracted text, or the error that reading it raised. */
  function EntryText(layout: Extractor, stream: Extractor, entries: seq<ZipEntry>, name: string): string {
    match ReadByName(entries, name)
    case Read(content) => ExtractTextFromPdf(layout, stream, content)
    case ReadFailed(cause) => ErrorProcessingPrefix + name + ": " + cause
  }

  /** Where `name` first occurs in `names`. */
  function FirstIndex(names: seq<string>, name: string): (i: nat)
    requires name in names
    ensures i < |names| && names[i] == name && name !in names[..i]
  {
    if names[0] == name then 0
    else
      var j := FirstIndex(names[1..], name);
      assert names[..j + 1] == [names[0]] + names[1..][..j];
      j + 1
  }

  /** Appending a name does not move the first occurrence of a name already present. */
  lemma FirstIndexOfPrefix(init: seq<string>, last: string, name: string)
    requires name in init
    ensures FirstIndex(init + [last], name) == FirstIndex(init, name)
  {
    var all := init + [last];
    var i, j := FirstIndex(all, name), FirstIndex(init, name);
    assert all[..j] == init[..j];
    assert all[j] == name;
  }

  /** A name new to `init` first occurs where it is appended. */
  lemma FirstIndexOfLast(init: seq<string>, last: string)
    requires last !in init
    ensures FirstIndex(init + [last], last) == |init|
  {
  }

  /**
   * The keys the result dictionary ends up with, in its (insertion) order: every eligible
   * name, once, ordered by where each first occurs.
   */
  function EligibleNames(names: seq<string>): (r: seq<string>)
    ensures forall k :: 0 <= k < |r| ==> IsEligibleEntry(r[k]) && r[k] in names
    ensures forall n :: n in names && IsEligibleEntry(n) ==> n in r
    ensures forall a, b :: 0 <= a < b < |r| ==> r[a] != r[b]
    ensures r == [] <==> forall k :: 0 <= k < |names| ==> !IsEligibleEntry(names[k])
  {
    if names == [] then []
    else
      var init := names[..|names| - 1];
      var last := names[|names| - 1];
      var r := EligibleNames(init);
      assert names == init + [last];
      if IsEligibleEntry(last) && last !in r then r + [last] else r
  }

  /** The eligible names come in the order of their first occurrences. */
  lemma {:induction false} EligibleNamesInFirstOccurrenceOrder(names: seq<string>)
    ensures InFirstOccurrenceOrder(names, EligibleNames(names))
  {
    if names != [] {
      var init := names[..|names| - 1];
      var last := names[|names| - 1];
      InitAndLast(names);
      EligibleNamesInFirstOccurrenceOrder(init);
      var r := EligibleNames(init);
      EligibleNamesStep(init, last, r);
    }
  }

  /** Every name of `r` occurs in `names`, and earlier in `r` means earlier first occurrence in `names`. */
  predicate InFirstOccurrenceOrder(names: seq<string>, r: seq<string>) {
    && (forall k :: 0 <= k < |r| ==> r[k] in names)
    && (forall a, b :: 0 <= a < b < |r| ==> FirstIndex(names, r[a]) < FirstIndex(names, r[b]))
  }

  lemma InitAndLast(names: seq<string>)
    requires names != []
    ensures names == names[..|names| - 1] + [names[|names| - 1]]
  {
  }

  /** The ordering half of one step of `EligibleNames`. */
  lemma EligibleNamesStep(init: seq<string>, last: string, r: seq<string>)
    requires forall n :: n in init && IsEligibleEntry(n) ==> n in r
    requires InFirstOccurrenceOrder(init, r)
    ensures InFirstOccurrenceOrder(init + [last], if IsEligibleEntry(last) && last !in r then r + [last] else r)
  {
    var names := init + [last];
    forall a | 0 <= a < |r| ensures r[a] in names && FirstIndex(names, r[a]) == FirstIndex(init, r[a]) < |init| {
      FirstIndexOfPrefix(init, last, r[a]);
    }
    if IsEligibleEntry(last) && last !in r {
      var r' := r + [last];
      FirstIndexOfLast(init, last);
      forall a, b | 0 <= a < b < |r'| ensures FirstIndex(names, r'[a]) < FirstIndex(names, r'[b]) {
        assert r'[a] == r[a];
        if b < |r| {
          assert r'[b] == r[b];
        }
      }
    }
  }

  /** A Python `dict` from names to texts, in insertion order. */
  type OrderedDict = seq<(string, string)>

  function KeysOf(d: OrderedDict): (keys: seq<string>)
    ensures |keys| == |d|
    ensures forall k :: 0 <= k < |d| ==> keys[k] == d[k].0
  {
    seq(|d|, k requires 0 <= k < |d| => d[k].0)
  }

  /** A dictionary holds each key once. */
  predicate UniqueKeys(d: OrderedDict) {
    forall a, b :: 0 <= a < b < |d| ==> d[a].0 != d[b].0
  }

  function FindKey(d: OrderedDict, key: string): (r: Option<nat>)
    ensures r.Some? ==> r.value < |d| && d[r.value].0 == key
    ensures r.None? ==> key !in KeysOf(d)
  {
    if d == [] then None
    else if d[0].0 == key then Some(0)
    else match FindKey(d[1..], key)
      case None => assert KeysOf(d) == [d[0].0] + KeysOf(d[1..]); None
      case Some(i) => Some(i + 1)
  }

  /**
   * `d[key] = value`: an existing key keeps its position and takes the new value; a new key
   * goes to the end.
   */
  function Put(d: OrderedDict, key: string, value: string): (r: OrderedDict)
    requires UniqueKeys(d)
    ensures key in KeysOf(d) ==> KeysOf(r) == KeysOf(d)
    ensures key !in KeysOf(d) ==> KeysOf(r) == KeysOf(d) + [key]
    ensures |d| <= |r| <= |d| + 1
    ensures forall k :: 0 <= k < |d| ==> r[k].0 == d[k].0
    ensures forall k :: 0 <= k < |r| ==> r[k].1 == (if r[k].0 == key then value else d[k].1)
  {
    match FindKey(d, key)
    case Some(i) => d[i := (key, value)]
    case None => d + [(key, value)]
  }

  /** Every stored text is the one its name's entry yields. */
  predicate TextsMatch(layout: Extractor, stream: Extractor, entries: seq<ZipEntry>, d: OrderedDict) {
    forall k :: 0 <= k < |d| ==> d[k].1 == EntryText(layout, stream, entries, d[k].0)
  }

  /**
   * One turn of the loop over `namelist()`: an eligible name is (re)stored with its text,
   * any other name is skipped. The keys stay the eligible names seen so far.
   */
  function ExtractEntry(
    layout: Extractor, stream: Extractor, entries: seq<ZipEntry>, names: seq<string>, i: nat, d: OrderedDict)
    : (next: OrderedDict)
    requires i < |names|
    requires KeysOf(d) == EligibleNames(names[..i]) && TextsMatch(layout, stream, entries, d)
    ensures KeysOf(next) == EligibleNames(names[..i + 1]) && TextsMatch(layout, stream, entries, next)
  {
    var name := names[i];
    assert names[..i + 1][..i] == names[..i];
    EligibleKeysUnique(d, names[..i]);
    if IsEligibleEntry(name) then
      var next := Put(d, name, EntryText(layout, stream, entries, name));
      PutKeepsTextsMatch(layout, stream, entries, d, name);
      next
    else d
  }

  /** A dictionary keyed by the eligible names holds each key once. */
  lemma EligibleKeysUnique(d: OrderedDict, names: seq<string>)
    requires KeysOf(d) == EligibleNames(names)
    ensures UniqueKeys(d)
  {
    forall a, b | 0 <= a < b < |d| ensures d[a].0 != d[b].0 {
      assert d[a].0 == KeysOf(d)[a] && d[b].0 == KeysOf(d)[b];
    }
  }

  /** Storing an entry's own text keeps every stored text matching its entry. */
  lemma PutKeepsTextsMatch(layout: Extractor, stream: Extractor, entries: seq<ZipEntry>, d: OrderedDict, name: string)
    requires UniqueKeys(d) && TextsMatch(layout, stream, entries, d)
    ensures TextsMatch(layout, stream, entries, Put(d, name, EntryText(layout, stream, entries, name)))
  {
    var next := Put(d, name, EntryText(layout, stream, entries, name));
    forall k | 0 <= k < |next| ensures next[k].1 == EntryText(layout, stream, entries, next[k].0) {
      if next[k].0 != name {
        assert k < |d| && next[k].0 == d[k].0;
      }
    }
  }

  const ZipFailurePrefix := "Failed to process ZIP file: "
  const NoPdfsMessage := "No valid PDFs found in ZIP file"

  /**
   * `process_zip_file`: the eligible entries' texts keyed by name in first-occurrence
   * order, with a failure on one entry recorded as that entry's text; fails when the
   * archive cannot be opened or holds no eligible entry.
   */
  method ProcessZipFile(layout: Extractor, stream: Extractor, archive: Archive)
    returns (r: Result<OrderedDict, string>)
    ensures archive.Unopenable? ==> r == Failure(ZipFailurePrefix + archive.cause)
    ensures archive.Opened? ==>
      (r.Failure? <==> forall k :: 0 <= k < |archive.entries| ==> !IsEligibleEntry(archive.entries[k].name))
    ensures archive.Opened? && r.Failure? ==> r.error == NoPdfsMessage
    ensures r.Success? ==> archive.Opened? && KeysOf(r.value) == EligibleNames(Namelist(archive.entries))
    ensures r.Success? ==> forall k :: 0 <= k < |r.value| ==>
      r.value[k].1 == EntryText(layout, stream, archive.entries, r.value[k].0)
  {
    match archive
    case Unopenable(cause) =>
      return Failure(ZipFailurePrefix + cause);
    case Opened(entries) =>
      var names := Namelist(entries);
      var extracted: OrderedDict := [];
      var i := 0;
      while i < |names|
        invariant 0 <= i <= |names|
        invariant KeysOf(extracted) == EligibleNames(names[..i])
        invariant TextsMatch(layout, stream, entries, extracted)
      {
        extracted := ExtractEntry(layout, stream, entries, names, i, extracted);
        i := i + 1;
      }
      assert names[..|names|] == names;
      if extracted == [] {
        return Failure(NoPdfsMessage);
      }
      return Success(extracted);
  }
}
