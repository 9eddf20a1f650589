/**
 Which pages of a PDF are read, and how: decided locally before anything costs money.

 The numbers found in the brief and the keyword ranking of the pages are inputs.  The pages
 the student named are taken; where there are none, the ranked ones; where there are none
 either, the first pages of the document.  Each page gets the cheapest method that can still
 be afforded: text layer, OCR, vision.
 */
module PagePlanning {
  import opened Sorting

  datatype Limits = Limits(maxPagesProcessed: nat, maxOcrPages: nat, maxVisionPages: nat)

  datatype Method = DigitalText | LocalOcr | Vision

  datatype PagePlan = PagePlan(page: nat, how: Method)

  datatype Inspection = Inspection(pageCount: nat, digital: set<nat>)

  // ---- pages the brief names --------------------------------------------------------

  predicate Covers(range: (nat, nat), page: nat) {
    range.0 <= page <= range.1 || range.1 <= page <= range.0
  }

  predicate Named(ranges: seq<(nat, nat)>, singles: seq<nat>, page: nat) {
    (exists i :: 0 <= i < |ranges| && Covers(ranges[i], page)) || page in singles
  }

  function PageRange(low: nat, high: nat): (pages: set<nat>)
    ensures forall p :: p in pages <==> low <= p <= high
  {
    if low > high then {}
    else if low == high then {low}
    else PageRange(low, high - 1) + {high}
  }

  /** Strictly increasing, and exactly the existing pages that some range or single names. */
  method ParseRequestedPages(ranges: seq<(nat, nat)>, singles: seq<nat>, pageCount: nat) returns (pages: seq<nat>)
    ensures Increasing(pages)
    ensures forall p :: p in pages <==> 1 <= p <= pageCount && Named(ranges, singles, p)
  {
    var requested: set<nat> := {};
    for i := 0 to |ranges|
      invariant forall p :: p in requested ==> p <= pageCount
      invariant forall p: nat :: p <= pageCount ==> (p in requested <==> exists j :: 0 <= j < i && Covers(ranges[j], p))
    {
      var (low, high) := ranges[i];
      if low > high {
        low, high := high, low;
      }
      var last := if high < pageCount then high else pageCount;
      ghost var before := requested;
      requested := requested + PageRange(low, last);
      forall p: nat | p <= pageCount
        ensures p in requested <==> exists j :: 0 <= j < i + 1 && Covers(ranges[j], p)
      {
        if p in requested && p !in before {
          assert Covers(ranges[i], p);
        }
      }
    }
    for i := 0 to |singles|
      invariant forall p :: p in requested ==> p <= pageCount
      invariant forall p :: 1 <= p <= pageCount ==> (p in requested <==> Named(ranges, singles[..i], p))
    {
      assert singles[..i + 1] == singles[..i] + [singles[i]];
      if 1 <= singles[i] <= pageCount {
        requested := requested + {singles[i]};
      }
    }
    assert singles[..|singles|] == singles;
    var existing := set p | p in requested && 1 <= p <= pageCount;
    pages := Ascending(existing, pageCount + 1);
    AscendingIsExact(existing, pageCount + 1);
  }

  // ---- the plan ------------------------------------------------------------------------

  function FirstPages(n: nat): seq<nat> {
    if n == 0 then [] else FirstPages(n - 1) + [n]
  }

  function Selected(inspection: Inspection, requested: seq<nat>, ranked: seq<nat>, limits: Limits): seq<nat> {
    var selected :=
      if |requested| > 0 then requested
      else if |ranked| > 0 then ranked
      else if inspection.pageCount <= limits.maxPagesProcessed then FirstPages(inspection.pageCount)
      else FirstPages(limits.maxPagesProcessed);
    if |selected| > limits.maxPagesProcessed then selected[..limits.maxPagesProcessed] else selected
  }

  function OcrCount(plans: seq<PagePlan>): nat {
    if |plans| == 0 then 0
    else OcrCount(plans[..|plans| - 1]) + (if plans[|plans| - 1].how == LocalOcr then 1 else 0)
  }

  /** The cheapest method that can still be afforded. */
  function Choose(page: nat, inspection: Inspection, limits: Limits, ocrAvailable: bool, ocrUsed: nat): PagePlan {
    PagePlan(page,
             if page in inspection.digital then DigitalText
             else if ocrAvailable && ocrUsed < limits.maxOcrPages then LocalOcr
             else Vision)
  }

  function PlanFor(selected: seq<nat>, inspection: Inspection, limits: Limits, ocrAvailable: bool): seq<PagePlan> {
    if |selected| == 0 then []
    else
      var earlier := PlanFor(selected[..|selected| - 1], inspection, limits, ocrAvailable);
      earlier + [Choose(selected[|selected| - 1], inspection, limits, ocrAvailable, OcrCount(earlier))]
  }

  lemma OcrCountSnoc(plans: seq<PagePlan>, last: PagePlan)
    ensures OcrCount(plans + [last]) == OcrCount(plans) + if last.how == LocalOcr then 1 else 0
  {
    assert (plans + [last])[..|plans|] == plans;
  }

  lemma PlanForSnoc(selected: seq<nat>, page: nat, inspection: Inspection, limits: Limits, ocrAvailable: bool)
    ensures var earlier := PlanFor(selected, inspection, limits, ocrAvailable);
            PlanFor(selected + [page], inspection, limits, ocrAvailable)
            == earlier + [Choose(page, inspection, limits, ocrAvailable, OcrCount(earlier))]
  {
    assert (selected + [page])[..|selected|] == selected;
  }

  method PlanExtraction(inspection: Inspection, requested: seq<nat>, ranked: seq<nat>, limits: Limits, ocrAvailable: bool)
    returns (plans: seq<PagePlan>)
    ensures plans == PlanFor(Selected(inspection, requested, ranked, limits), inspection, limits, ocrAvailable)
  {
    var selected := Selected(inspection, requested, ranked, limits);
    plans := [];
    var ocrUsed := 0;
    for i := 0 to |selected|
      invariant plans == PlanFor(selected[..i], inspection, limits, ocrAvailable)
      invariant ocrUsed == OcrCount(plans)
    {
      var page := selected[i];
      assert selected[..i + 1] == selected[..i] + [page];
      PlanForSnoc(selected[..i], page, inspection, limits, ocrAvailable);
      OcrCountSnoc(plans, Choose(page, inspection, limits, ocrAvailable, ocrUsed));
      if page in inspection.digital {
        plans := plans + [PagePlan(page, DigitalText)];
      } else if ocrAvailable && ocrUsed < limits.maxOcrPages {
        ocrUsed := ocrUsed + 1;
        plans := plans + [PagePlan(page, LocalOcr)];
      } else {
        plans := plans + [PagePlan(page, Vision)];
      }
    }
    assert selected[..|selected|] == selected;
  }

  predicate NoRepeat(s: seq<nat>) {
    forall i, j :: 0 <= i < j < |s| ==> s[i] != s[j]
  }

  predicate Exists(s: seq<nat>, pageCount: nat) {
    forall i :: 0 <= i < |s| ==> 1 <= s[i] <= pageCount
  }

  lemma {:induction false} FirstPagesAre(n: nat)
    ensures |FirstPages(n)| == n && forall i :: 0 <= i < n ==> FirstPages(n)[i] == i + 1
  {
    if n > 0 {
      FirstPagesAre(n - 1);
    }
  }

  /** The page budget, the OCR budget, and cheapest-first, for one planned page. */
  predicate WellChosen(plans: seq<PagePlan>, i: nat, inspection: Inspection, limits: Limits, ocrAvailable: bool)
    requires i < |plans|
  {
    var plan, used := plans[i], OcrCount(plans[..i]);
    && (plan.how == DigitalText <==> plan.page in inspection.digital)
    && (plan.how == LocalOcr ==> ocrAvailable && used < limits.maxOcrPages)
    && (plan.how == Vision ==> !ocrAvailable || used == limits.maxOcrPages)
  }

  function Pages(plans: seq<PagePlan>): seq<nat> {
    if |plans| == 0 then [] else Pages(plans[..|plans| - 1]) + [plans[|plans| - 1].page]
  }

  lemma {:induction false} PlanFollowsSelection(selected: seq<nat>, inspection: Inspection, limits: Limits, ocrAvailable: bool)
    ensures var plans := PlanFor(selected, inspection, limits, ocrAvailable);
            |plans| == |selected| && Pages(plans) == selected && OcrCount(plans) <= limits.maxOcrPages
  {
    if |selected| > 0 {
      var front, page := selected[..|selected| - 1], selected[|selected| - 1];
      PlanFollowsSelection(front, inspection, limits, ocrAvailable);
      var earlier := PlanFor(front, inspection, limits, ocrAvailable);
      var plan := Choose(page, inspection, limits, ocrAvailable, OcrCount(earlier));
      OcrCountSnoc(earlier, plan);
      assert (earlier + [plan])[..|earlier|] == earlier;
    }
  }

  lemma {:induction false} PlanIsCheapestFirst(selected: seq<nat>, inspection: Inspection, limits: Limits, ocrAvailable: bool, i: nat)
    requires i < |selected|
    ensures |PlanFor(selected, inspection, limits, ocrAvailable)| == |selected|
    ensures WellChosen(PlanFor(selected, inspection, limits, ocrAvailable), i, inspection, limits, ocrAvailable)
  {
    var front := selected[..|selected| - 1];
    var earlier, plans := PlanFor(front, inspection, limits, ocrAvailable), PlanFor(selected, inspection, limits, ocrAvailable);
    PlanFollowsSelection(front, inspection, limits, ocrAvailable);
    assert plans[..|earlier|] == earlier;
    if i < |front| {
      PlanIsCheapestFirst(front, inspection, limits, ocrAvailable, i);
      assert plans[..i] == earlier[..i];
    }
  }

  /** The first of some pages, as many as may be processed. */
  predicate TakenFrom(selected: seq<nat>, pages: seq<nat>, limits: Limits) {
    selected <= pages && (|selected| == |pages| || |selected| == limits.maxPagesProcessed)
  }

  /** Pages 1, 2, 3, ... of the document, as many as may be processed. */
  predicate AreFirst(selected: seq<nat>, pageCount: nat, limits: Limits) {
    && |selected| == (if pageCount < limits.maxPagesProcessed then pageCount else limits.maxPagesProcessed)
    && forall i :: 0 <= i < |selected| ==> selected[i] == i + 1
  }

  lemma SelectionIsBounded(inspection: Inspection, requested: seq<nat>, ranked: seq<nat>, limits: Limits)
    requires NoRepeat(requested) && Exists(requested, inspection.pageCount)
    requires NoRepeat(ranked) && Exists(ranked, inspection.pageCount)
    ensures var selected := Selected(inspection, requested, ranked, limits);
            && |selected| <= limits.maxPagesProcessed
            && NoRepeat(selected) && Exists(selected, inspection.pageCount)
            && (|requested| > 0 ==> TakenFrom(selected, requested, limits))
            && (|requested| == 0 && |ranked| > 0 ==> TakenFrom(selected, ranked, limits))
            && (|requested| == 0 && |ranked| == 0 ==> AreFirst(selected, inspection.pageCount, limits))
  {
    FirstPagesAre(inspection.pageCount);
    FirstPagesAre(limits.maxPagesProcessed);
  }

  /**
   For any brief and any document, the plan stays within the page and OCR budgets, names
   existing pages once each, and reads the first pages the student named, or where none is named
   the best ranked, or where none is ranked the first of the document.
   */
  lemma PlanIsBounded(inspection: Inspection, requested: seq<nat>, ranked: seq<nat>, limits: Limits, ocrAvailable: bool)
    requires NoRepeat(requested) && Exists(requested, inspection.pageCount)
    requires NoRepeat(ranked) && Exists(ranked, inspection.pageCount)
    ensures var plans := PlanFor(Selected(inspection, requested, ranked, limits), inspection, limits, ocrAvailable);
            && |plans| == |Pages(plans)| <= limits.maxPagesProcessed
            && OcrCount(plans) <= limits.maxOcrPages
            && NoRepeat(Pages(plans)) && Exists(Pages(plans), inspection.pageCount)
            && (|requested| > 0 ==> TakenFrom(Pages(plans), requested, limits))
            && (|requested| == 0 && |ranked| > 0 ==> TakenFrom(Pages(plans), ranked, limits))
            && (|requested| == 0 && |ranked| == 0 ==> AreFirst(Pages(plans), inspection.pageCount, limits))
  {
    SelectionIsBounded(inspection, requested, ranked, limits);
    PlanFollowsSelection(Selected(inspection, requested, ranked, limits), inspection, limits, ocrAvailable);
  }
}
