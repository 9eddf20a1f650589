/**
 The extraction cache of one owner's document: what a run reads from it, what it adds,
 and what that means over any sequence of runs.
 */
module ExtractionCache {
  import opened Extraction
  import opened PagePlanning
  import opened Sorting

  // The unique key of a row within one document: a page may have a row for each method.
  datatype Slot = Slot(page: nat, how: Method)

  type Cache = map<Slot, PageExtraction>

  function SlotOf(x: PageExtraction): Slot {
    Slot(x.page, x.how)
  }

  predicate Has(cache: Cache, page: nat) {
    exists how :: Slot(page, how) in cache
  }

  /** The row a read finds for a page.  Among several the order is arbitrary; runs never store several. */
  function At(cache: Cache, page: nat): PageExtraction
    requires Has(cache, page)
  {
    if Slot(page, DigitalText) in cache then cache[Slot(page, DigitalText)]
    else if Slot(page, LocalOcr) in cache then cache[Slot(page, LocalOcr)]
    else
      SomeMethod(cache, page);
      cache[Slot(page, Vision)]
  }

  lemma SomeMethod(cache: Cache, page: nat)
    requires Has(cache, page)
    ensures Slot(page, DigitalText) in cache || Slot(page, LocalOcr) in cache || Slot(page, Vision) in cache
  {
    var how :| Slot(page, how) in cache;
    match how
    case DigitalText =>
    case LocalOcr =>
    case Vision =>
  }

  /** Rows stand under their own key, and no page has two. */
  predicate OnePerPage(cache: Cache) {
    && (forall k :: k in cache ==> SlotOf(cache[k]) == k)
    && (forall k, l :: k in cache && l in cache && k.page == l.page ==> k == l)
  }

  /** No row is lost and none changes. */
  predicate Extends(after: Cache, before: Cache) {
    forall k :: k in before ==> k in after && after[k] == before[k]
  }

  lemma RowIsFound(cache: Cache, x: PageExtraction)
    requires OnePerPage(cache) && SlotOf(x) in cache && cache[SlotOf(x)] == x
    ensures Has(cache, x.page) && At(cache, x.page) == x
  {
    assert Slot(x.page, x.how) in cache;
    FoundIsARow(cache, x.page);
  }

  lemma FoundIsARow(cache: Cache, page: nat)
    requires OnePerPage(cache) && Has(cache, page)
    ensures var x := At(cache, page); x.page == page && SlotOf(x) in cache && cache[SlotOf(x)] == x
  {
    SomeMethod(cache, page);
  }

  function Remaining(plans: seq<PagePlan>, cache: Cache): seq<PagePlan> {
    if |plans| == 0 then []
    else
      var last := plans[|plans| - 1];
      Remaining(plans[..|plans| - 1], cache) + (if Has(cache, last.page) then [] else [last])
  }

  function CachedRows(plans: seq<PagePlan>, cache: Cache): seq<PageExtraction> {
    if |plans| == 0 then []
    else
      var last := plans[|plans| - 1];
      CachedRows(plans[..|plans| - 1], cache) + (if Has(cache, last.page) then [At(cache, last.page)] else [])
  }

  /** A new row, or on conflict the row of the same page and method with the new text. */
  function Stored(cache: Cache, x: PageExtraction): Cache {
    if SlotOf(x) in cache then cache[SlotOf(x) := cache[SlotOf(x)].(text := x.text)]
    else cache[SlotOf(x) := x]
  }

  function StoredAll(cache: Cache, pages: seq<PageExtraction>): Cache {
    if |pages| == 0 then cache
    else Stored(StoredAll(cache, pages[..|pages| - 1]), pages[|pages| - 1])
  }

  predicate ByPage(a: PageExtraction, b: PageExtraction) {
    a.page <= b.page
  }

  datatype Processed = Processed(pages: seq<PageExtraction>, outcome: Outcome, cache: Cache)

  /** One run on a readable PDF: cached pages first, the rest extracted, stored and merged in page order. */
  function ProcessPdf(cache: Cache, plans: seq<PagePlan>, given: Conditions, limits: Limits): Processed {
    var outcome := Extract(Remaining(plans, cache), given, limits);
    Processed(Sort(CachedRows(plans, cache) + outcome.pages, ByPage), outcome, StoredAll(cache, outcome.pages))
  }

  class ExtractionTable {
    var rows: Cache

    constructor ()
      ensures rows == map[]
    {
      rows := map[];
    }

    method StoreExtraction(page: PageExtraction)
      modifies this
      ensures rows == Stored(old(rows), page)
    {
      var slot := SlotOf(page);
      if slot in rows {
        rows := rows[slot := rows[slot].(text := page.text)];
      } else {
        rows := rows[slot := page];
      }
    }

    method Process(plans: seq<PagePlan>, given: Conditions, limits: Limits)
      returns (pages: seq<PageExtraction>, outcome: Outcome)
      modifies this
      ensures Processed(pages, outcome, rows) == ProcessPdf(old(rows), plans, given, limits)
    {
      var remaining := Remaining(plans, rows);
      pages := CachedRows(plans, rows);
      outcome := NOTHING;
      if |remaining| > 0 {
        outcome := RunPlan(remaining, given, limits);
        pages := pages + outcome.pages;
        for i := 0 to |outcome.pages|
          invariant rows == StoredAll(old(rows), outcome.pages[..i])
        {
          assert outcome.pages[..i + 1][..i] == outcome.pages[..i];
          StoreExtraction(outcome.pages[i]);
        }
        assert outcome.pages[..|outcome.pages|] == outcome.pages;
      } else {
        assert CachedRows(plans, rows) + NOTHING.pages == pages;
      }
      pages := Sort(pages, ByPage);
    }
  }

  // ---- one run ----------------------------------------------------------------------

  lemma {:induction false} RemainingSplitsThePlan(plans: seq<PagePlan>, cache: Cache)
    requires NoRepeat(Pages(plans))
    ensures NoRepeat(Pages(Remaining(plans, cache)))
    ensures forall p :: p in Pages(Remaining(plans, cache)) <==> p in Pages(plans) && !Has(cache, p)
    ensures OcrCount(Remaining(plans, cache)) <= OcrCount(plans)
  {
    if |plans| > 0 {
      var front, last := plans[..|plans| - 1], plans[|plans| - 1];
      NoRepeatSnoc(Pages(front), last.page);
      RemainingSplitsThePlan(front, cache);
      var rest := Remaining(front, cache);
      if Has(cache, last.page) {
        assert Remaining(plans, cache) == rest;
      } else {
        OcrCountSnoc(rest, last);
        assert (rest + [last])[..|rest|] == rest;
        ListedGrows(Pages(rest), Pages(rest), last.page);
      }
    }
  }

  predicate Distinct(pages: seq<PageExtraction>) {
    forall i, j :: 0 <= i < j < |pages| ==> pages[i].page != pages[j].page
  }

  lemma {:induction false} PageNumbersAre(pages: seq<PageExtraction>)
    ensures |PageNumbers(pages)| == |pages|
    ensures forall i :: 0 <= i < |pages| ==> PageNumbers(pages)[i] == pages[i].page
  {
    if |pages| > 0 {
      PageNumbersAre(pages[..|pages| - 1]);
    }
  }

  /** The pages are the rows of the cache for some numbers, each once. */
  predicate RowsOf(pages: seq<PageExtraction>, cache: Cache, numbers: seq<nat>) {
    && Distinct(pages)
    && (forall x :: x in pages ==> x.page in numbers && SlotOf(x) in cache && cache[SlotOf(x)] == x)
    && (forall p :: p in numbers && Has(cache, p) ==> At(cache, p) in pages)
  }

  lemma {:induction false} CachedRowsAre(plans: seq<PagePlan>, cache: Cache)
    requires NoRepeat(Pages(plans)) && OnePerPage(cache)
    ensures RowsOf(CachedRows(plans, cache), cache, Pages(plans))
  {
    if |plans| > 0 {
      var front, last := plans[..|plans| - 1], plans[|plans| - 1];
      NoRepeatSnoc(Pages(front), last.page);
      CachedRowsAre(front, cache);
      var rows := CachedRows(front, cache);
      assert forall i :: 0 <= i < |rows| ==> rows[i] in rows;
      if Has(cache, last.page) {
        FoundIsARow(cache, last.page);
      }
    }
  }

  /** Pages that were not there are added, and nothing else changes. */
  lemma {:induction false} StoringOnlyAdds(cache: Cache, pages: seq<PageExtraction>)
    requires OnePerPage(cache) && Distinct(pages)
    requires forall x :: x in pages ==> !Has(cache, x.page)
    ensures var after := StoredAll(cache, pages);
            && OnePerPage(after) && Extends(after, cache)
            && (forall x :: x in pages ==> SlotOf(x) in after && after[SlotOf(x)] == x)
            && (forall k :: k in after && k !in cache ==> after[k] in pages)
  {
    if |pages| > 0 {
      var front, last := pages[..|pages| - 1], pages[|pages| - 1];
      assert pages == front + [last];
      StoringOnlyAdds(cache, front);
      var before := StoredAll(cache, front);
      assert last in pages;
      forall k | k in before ensures k.page != last.page {
        assert k in cache ==> Slot(k.page, k.how) in cache;
        assert k !in cache ==> before[k] in front;
      }
      NewRowIsAdded(before, last);
    }
  }

  lemma NewRowIsAdded(cache: Cache, x: PageExtraction)
    requires OnePerPage(cache) && forall k :: k in cache ==> k.page != x.page
    ensures OnePerPage(Stored(cache, x)) && Stored(cache, x) == cache[SlotOf(x) := x]
  {
  }

  predicate StrictlyByPage(pages: seq<PageExtraction>) {
    forall i, j :: 0 <= i < j < |pages| ==> pages[i].page < pages[j].page
  }

  lemma ByPageIsPreorder()
    ensures Preorder(ByPage)
  {
  }

  lemma {:induction false} SortedDistinctIsStrict(pages: seq<PageExtraction>)
    requires Distinct(pages)
    ensures StrictlyByPage(Sort(pages, ByPage))
  {
    ByPageIsPreorder();
    if |pages| > 0 {
      var rest := Sort(pages[1..], ByPage);
      SortedDistinctIsStrict(pages[1..]);
      forall x | x in rest ensures x.page != pages[0].page {
        SortMembers(pages[1..], ByPage, x);
      }
      InsertIsStrict(pages[0], rest);
    }
  }

  lemma {:induction false} InsertIsStrict(x: PageExtraction, pages: seq<PageExtraction>)
    requires StrictlyByPage(pages) && forall y :: y in pages ==> y.page != x.page
    ensures StrictlyByPage(Insert(x, pages, ByPage))
  {
    if |pages| > 0 && !ByPage(x, pages[0]) {
      InsertIsStrict(x, pages[1..]);
      forall y | y in Insert(x, pages[1..], ByPage) ensures pages[0].page < y.page {
        InsertMembers(x, pages[1..], ByPage, y);
      }
    }
  }

  /** Cached and extracted pages together are the rows of the new cache for the plan. */
  lemma MergedRowsAre(cache: Cache, plans: seq<PagePlan>, extracted: seq<PageExtraction>)
    requires OnePerPage(cache) && NoRepeat(Pages(plans)) && Distinct(extracted)
    requires forall x :: x in extracted ==> x.page in Pages(plans) && !Has(cache, x.page)
    ensures RowsOf(CachedRows(plans, cache) + extracted, StoredAll(cache, extracted), Pages(plans))
  {
    CachedRowsAre(plans, cache);
    StoringOnlyAdds(cache, extracted);
    var rows, after := CachedRows(plans, cache), StoredAll(cache, extracted);
    MergedAreDistinct(rows, extracted, cache);
    forall p | p in Pages(plans) && Has(after, p) ensures At(after, p) in rows + extracted {
      FoundInEither(cache, after, rows, extracted, Pages(plans), p);
    }
  }

  lemma MergedAreDistinct(rows: seq<PageExtraction>, extracted: seq<PageExtraction>, cache: Cache)
    requires Distinct(rows) && Distinct(extracted)
    requires forall x :: x in rows ==> SlotOf(x) in cache
    requires forall x :: x in extracted ==> !Has(cache, x.page)
    ensures Distinct(rows + extracted)
  {
    forall i, j | 0 <= i < |rows| && 0 <= j < |extracted| ensures rows[i].page != extracted[j].page {
      assert rows[i] in rows && extracted[j] in extracted;
      assert Slot(rows[i].page, rows[i].how) in cache;
    }
  }

  lemma FoundInEither(
    cache: Cache, after: Cache, rows: seq<PageExtraction>, extracted: seq<PageExtraction>, numbers: seq<nat>, p: nat)
    requires OnePerPage(cache) && OnePerPage(after) && Extends(after, cache)
    requires RowsOf(rows, cache, numbers) && p in numbers && Has(after, p)
    requires forall k :: k in after && k !in cache ==> after[k] in extracted
    ensures At(after, p) in rows + extracted
  {
    FoundIsARow(after, p);
    var x := At(after, p);
    if SlotOf(x) in cache {
      RowIsFound(cache, x);
    }
  }

  lemma ExtractedAreNew(cache: Cache, plans: seq<PagePlan>, given: Conditions, limits: Limits)
    requires NoRepeat(Pages(plans))
    ensures var o := Extract(Remaining(plans, cache), given, limits);
            && WithinBudget(o, Remaining(plans, cache), limits)
            && Distinct(o.pages)
            && (forall x :: x in o.pages ==> x.page in Pages(plans) && !Has(cache, x.page))
  {
    var remaining := Remaining(plans, cache);
    var o := Extract(remaining, given, limits);
    RemainingSplitsThePlan(plans, cache);
    RunIsWithinBudget(remaining, given, limits);
    PageNumbersAre(o.pages);
    forall x | x in o.pages ensures x.page in Pages(remaining) {
      var i :| 0 <= i < |o.pages| && o.pages[i] == x;
      assert PageNumbers(o.pages)[i] in PageNumbers(o.pages);
    }
    forall i, j | 0 <= i < j < |o.pages| ensures o.pages[i].page != o.pages[j].page {
      assert PageNumbers(o.pages)[i] != PageNumbers(o.pages)[j];
    }
  }

  /**
   One run: pages already in the cache are neither read nor seen again, no row changes and no
   page gets a second row, the caps hold, and the merged pages are the cached and new pages of the plan in strictly
   increasing order.
   */
  lemma OneRun(cache: Cache, plans: seq<PagePlan>, given: Conditions, limits: Limits)
    requires OnePerPage(cache) && NoRepeat(Pages(plans)) && OcrCount(plans) <= limits.maxOcrPages
    ensures var run := ProcessPdf(cache, plans, given, limits);
            && OnePerPage(run.cache)
            && Extends(run.cache, cache)
            && (forall x :: x in run.outcome.pages ==> SlotOf(x) in run.cache && run.cache[SlotOf(x)] == x)
            && (forall p :: p in run.outcome.read || p in run.outcome.seen ==> p in Pages(plans) && !Has(cache, p))
            && |run.outcome.read| <= limits.maxOcrPages
            && |run.outcome.calls| <= |run.outcome.seen| <= limits.maxVisionPages
            && StrictlyByPage(run.pages)
            && RowsOf(run.pages, run.cache, Pages(plans))
  {
    var run := ProcessPdf(cache, plans, given, limits);
    RemainingSplitsThePlan(plans, cache);
    ExtractedAreNew(cache, plans, given, limits);
    StoringOnlyAdds(cache, run.outcome.pages);
    MergedRowsAre(cache, plans, run.outcome.pages);
    var unsorted := CachedRows(plans, cache) + run.outcome.pages;
    SortedDistinctIsStrict(unsorted);
    ByPageIsPreorder();
    forall x ensures x in run.pages <==> x in unsorted {
      SortMembers(unsorted, ByPage, x);
    }
  }

  /** An uncached page stands in what remains of the plan, behind what remains of the pages before it. */
  lemma {:induction false} RemainingAt(plans: seq<PagePlan>, cache: Cache, i: nat)
    requires i < |plans| && !Has(cache, plans[i].page)
    ensures var rest, before := Remaining(plans, cache), Remaining(plans[..i], cache);
            |before| < |rest| && rest[|before|] == plans[i] && rest[..|before|] == before
  {
    var front := plans[..|plans| - 1];
    if i < |front| {
      RemainingAt(front, cache, i);
      assert front[..i] == plans[..i];
    }
  }

  /** And none is left out: a planned page is served from the cache, or read as planned and added to the result. */
  lemma EveryPlannedPageIsServed(cache: Cache, plans: seq<PagePlan>, given: Conditions, limits: Limits, i: nat)
    requires OnePerPage(cache) && NoRepeat(Pages(plans)) && OcrCount(plans) <= limits.maxOcrPages && i < |plans|
    ensures var run, page := ProcessPdf(cache, plans, given, limits), plans[i].page;
            if Has(cache, page) then At(cache, page) in run.pages
            else
              && (forall x :: x in run.outcome.pages ==> x in run.pages)
              && ReadAsPlanned(run.outcome, plans[i], given,
                               |Extract(Remaining(plans[..i], cache), given, limits).seen| < limits.maxVisionPages)
  {
    var run, page := ProcessPdf(cache, plans, given, limits), plans[i].page;
    OneRun(cache, plans, given, limits);
    if Has(cache, page) {
      PlannedPage(plans, i);
      FoundIsARow(cache, page);
      RowIsFound(run.cache, At(cache, page));
    } else {
      RemainingAt(plans, cache, i);
      RemainingSplitsThePlan(plans, cache);
      EveryPageIsReadAsPlanned(Remaining(plans, cache), given, limits, |Remaining(plans[..i], cache)|);
      ByPageIsPreorder();
      forall x | x in run.outcome.pages ensures x in run.pages {
        SortMembers(CachedRows(plans, cache) + run.outcome.pages, ByPage, x);
      }
    }
  }

  // ---- any sequence of runs -------------------------------------------------------------

  datatype Request = Request(plans: seq<PagePlan>, given: Conditions)

  predicate Planned(requests: seq<Request>, limits: Limits) {
    forall i :: 0 <= i < |requests| ==>
      NoRepeat(Pages(requests[i].plans)) && OcrCount(requests[i].plans) <= limits.maxOcrPages
  }

  /** The cache after the first n runs. */
  function CacheAfter(requests: seq<Request>, limits: Limits, n: nat): Cache
    requires n <= |requests|
  {
    if n == 0 then map[]
    else ProcessPdf(CacheAfter(requests, limits, n - 1), requests[n - 1].plans, requests[n - 1].given, limits).cache
  }

  function OutcomeOf(requests: seq<Request>, limits: Limits, n: nat): Outcome
    requires n < |requests|
  {
    ProcessPdf(CacheAfter(requests, limits, n), requests[n].plans, requests[n].given, limits).outcome
  }

  lemma {:induction false} CacheOnlyGrows(requests: seq<Request>, limits: Limits, m: nat, n: nat)
    requires Planned(requests, limits) && m <= n <= |requests|
    ensures OnePerPage(CacheAfter(requests, limits, n))
    ensures Extends(CacheAfter(requests, limits, n), CacheAfter(requests, limits, m))
  {
    if n > 0 {
      if m < n {
        CacheOnlyGrows(requests, limits, m, n - 1);
      } else {
        CacheOnlyGrows(requests, limits, n - 1, n - 1);
      }
      OneRun(CacheAfter(requests, limits, n - 1), requests[n - 1].plans, requests[n - 1].given, limits);
    }
  }

  lemma RunIsCached(requests: seq<Request>, limits: Limits, i: nat, x: PageExtraction)
    requires Planned(requests, limits) && i < |requests|
    requires x in OutcomeOf(requests, limits, i).pages
    ensures SlotOf(x) in CacheAfter(requests, limits, i + 1) && CacheAfter(requests, limits, i + 1)[SlotOf(x)] == x
  {
    CacheOnlyGrows(requests, limits, i, i);
    OneRun(CacheAfter(requests, limits, i), requests[i].plans, requests[i].given, limits);
  }

  /**
   Over any sequence of runs on one owner's document, a page extracted by some run keeps its
   text for ever and is never read by OCR or sent to the vision model by a later run.
   */
  lemma ExtractedPagesAreNeverPaidAgain(requests: seq<Request>, limits: Limits, i: nat, j: nat, x: PageExtraction)
    requires Planned(requests, limits) && i < j < |requests|
    requires x in OutcomeOf(requests, limits, i).pages
    ensures x.page !in OutcomeOf(requests, limits, j).read
    ensures x.page !in OutcomeOf(requests, limits, j).seen
    ensures var cache := CacheAfter(requests, limits, j); Has(cache, x.page) && At(cache, x.page) == x
  {
    RunIsCached(requests, limits, i, x);
    CacheOnlyGrows(requests, limits, i + 1, j);
    RowIsFound(CacheAfter(requests, limits, j), x);
    OneRun(CacheAfter(requests, limits, j), requests[j].plans, requests[j].given, limits);
  }
}
