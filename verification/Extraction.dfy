/**
 Executing a page plan: text layer, OCR or the vision model, page by page.

 What OCR and the vision model make of a page is an arbitrary input of each run.  A page
 whose OCR text is not usable falls through to the vision model, which has its own cap, one
 attempt for each page, and needs a gateway and a permitting decision.  A page that nothing
 could read is left out of the result.
 */
module Extraction {
  import opened Common
  import opened Gateway
  import opened PagePlanning
  import BudgetPolicy

  datatype PageExtraction = PageExtraction(page: nat, how: Method, text: string)

  // What one run finds: usable OCR text per page or none, and a provider per page.
  datatype Conditions = Conditions(
    digitalText: nat -> string,
    ocrAvailable: bool,
    usableOcr: nat -> Option<string>,
    hasGateway: bool,
    permitsPaidCall: bool,
    route: Route,
    vision: nat -> Oracle)

  // read lists the pages put through OCR, seen those sent to the vision model.
  datatype Outcome = Outcome(pages: seq<PageExtraction>, calls: seq<Call>, read: seq<nat>, seen: seq<nat>)

  const NOTHING := Outcome([], [], [], [])

  // ---- one page -------------------------------------------------------------------

  function VisionAttempts(page: nat, given: Conditions): seq<Call> {
    RunAliases(given.route, [BudgetPolicy.Vision], 1, given.vision(page), [])
  }

  function VisionPage(o: Outcome, page: nat, given: Conditions, limits: Limits): Outcome {
    if |o.seen| >= limits.maxVisionPages || !given.hasGateway || !given.permitsPaidCall then o
    else
      var attempts := VisionAttempts(page, given);
      var call := Successful(attempts);
      o.(calls := o.calls + attempts,
         seen := o.seen + [page],
         pages := if call.None? then o.pages else o.pages + [PageExtraction(page, Vision, call.value.text)])
  }

  function ExtractPage(o: Outcome, plan: PagePlan, given: Conditions, limits: Limits): Outcome {
    if plan.how == DigitalText then
      o.(pages := o.pages + [PageExtraction(plan.page, DigitalText, given.digitalText(plan.page))])
    else if plan.how == LocalOcr && given.ocrAvailable then
      var read := o.(read := o.read + [plan.page]);
      var text := given.usableOcr(plan.page);
      if text.Some? then read.(pages := o.pages + [PageExtraction(plan.page, LocalOcr, text.value)])
      else VisionPage(read, plan.page, given, limits)
    else VisionPage(o, plan.page, given, limits)
  }

  function Extract(plans: seq<PagePlan>, given: Conditions, limits: Limits): Outcome {
    if |plans| == 0 then NOTHING
    else ExtractPage(Extract(plans[..|plans| - 1], given, limits), plans[|plans| - 1], given, limits)
  }

  method SendToVision(before: Outcome, page: nat, given: Conditions, limits: Limits) returns (o: Outcome)
    ensures o == VisionPage(before, page, given, limits)
  {
    o := before;
    if |o.seen| >= limits.maxVisionPages {
      return;
    }
    if !given.hasGateway {
      return;
    }
    if !given.permitsPaidCall {
      return;
    }
    var call, attempts := Invoke(given.route, [BudgetPolicy.Vision], 1, given.vision(page));
    o := o.(calls := o.calls + attempts, seen := o.seen + [page]);
    if call.None? {
      return;
    }
    o := o.(pages := o.pages + [PageExtraction(page, Vision, call.value.text)]);
  }

  method RunPlan(plans: seq<PagePlan>, given: Conditions, limits: Limits) returns (o: Outcome)
    ensures o == Extract(plans, given, limits)
  {
    o := NOTHING;
    for i := 0 to |plans|
      invariant o == Extract(plans[..i], given, limits)
    {
      assert plans[..i + 1][..i] == plans[..i];
      var page := plans[i].page;
      if plans[i].how == DigitalText {
        o := o.(pages := o.pages + [PageExtraction(page, DigitalText, given.digitalText(page))]);
        continue;
      }
      if plans[i].how == LocalOcr && given.ocrAvailable {
        var text := given.usableOcr(page);
        o := o.(read := o.read + [page]);
        if text.Some? {
          o := o.(pages := o.pages + [PageExtraction(page, LocalOcr, text.value)]);
          continue;
        }
        o := SendToVision(o, page, given, limits);
        continue;
      }
      o := SendToVision(o, page, given, limits);
    }
    assert plans[..|plans|] == plans;
  }

  function PageNumbers(pages: seq<PageExtraction>): seq<nat> {
    if |pages| == 0 then [] else PageNumbers(pages[..|pages| - 1]) + [pages[|pages| - 1].page]
  }

  /** Some of the planned pages, each once. */
  predicate Listed(pages: seq<nat>, planned: seq<nat>) {
    NoRepeat(pages) && forall p :: p in pages ==> p in planned
  }

  /** What a run may cost: at most one provider call a page sent, within the caps, each planned page once. */
  predicate WithinBudget(o: Outcome, plans: seq<PagePlan>, limits: Limits) {
    && |o.calls| <= |o.seen| <= limits.maxVisionPages
    && |o.read| <= OcrCount(plans)
    && Listed(o.read, Pages(plans))
    && Listed(o.seen, Pages(plans))
    && Listed(PageNumbers(o.pages), Pages(plans))
  }

  lemma ListedGrows(pages: seq<nat>, planned: seq<nat>, page: nat)
    requires Listed(pages, planned) && page !in planned
    ensures Listed(pages, planned + [page]) && Listed(pages + [page], planned + [page])
  {
    assert page !in pages;
    assert forall i :: 0 <= i < |pages| ==> pages[i] in pages;
  }

  /** The lists a page adds to: each either gains the page or stays. */
  lemma ExtractPageAdds(o: Outcome, plan: PagePlan, given: Conditions, limits: Limits)
    ensures var after := ExtractPage(o, plan, given, limits);
            && (after.read == o.read || (after.read == o.read + [plan.page] && plan.how == LocalOcr))
            && ((after.seen == o.seen && after.calls == o.calls)
                || (after.seen == o.seen + [plan.page] && |o.seen| < limits.maxVisionPages && |after.calls| <= |o.calls| + 1))
            && (PageNumbers(after.pages) == PageNumbers(o.pages) || PageNumbers(after.pages) == PageNumbers(o.pages) + [plan.page])
  {
    AttemptBudget(given.route, [BudgetPolicy.Vision], 1, given.vision(plan.page));
    var after := ExtractPage(o, plan, given, limits);
    if |after.pages| > |o.pages| {
      assert after.pages[..|after.pages| - 1] == o.pages;
    }
  }

  /** One more page, not planned before, keeps the run within its budget. */
  lemma ExtractPageStaysWithinBudget(o: Outcome, plans: seq<PagePlan>, plan: PagePlan, given: Conditions, limits: Limits)
    requires WithinBudget(o, plans, limits) && plan.page !in Pages(plans)
    ensures WithinBudget(ExtractPage(o, plan, given, limits), plans + [plan], limits)
  {
    assert Pages(plans + [plan]) == Pages(plans) + [plan.page] by {
      assert (plans + [plan])[..|plans|] == plans;
    }
    OcrCountSnoc(plans, plan);
    ListedGrows(o.read, Pages(plans), plan.page);
    ListedGrows(o.seen, Pages(plans), plan.page);
    ListedGrows(PageNumbers(o.pages), Pages(plans), plan.page);
    ExtractPageAdds(o, plan, given, limits);
  }

  lemma NoRepeatSnoc(pages: seq<nat>, last: nat)
    requires NoRepeat(pages + [last])
    ensures NoRepeat(pages) && last !in pages
  {
    var all := pages + [last];
    assert forall i :: 0 <= i < |pages| ==> all[i] == pages[i] && all[i] != all[|pages|];
  }

  lemma {:induction false} RunIsWithinBudget(plans: seq<PagePlan>, given: Conditions, limits: Limits)
    requires NoRepeat(Pages(plans))
    ensures WithinBudget(Extract(plans, given, limits), plans, limits)
  {
    if |plans| > 0 {
      var front, last := plans[..|plans| - 1], plans[|plans| - 1];
      assert plans == front + [last];
      NoRepeatSnoc(Pages(front), last.page);
      RunIsWithinBudget(front, given, limits);
      ExtractPageStaysWithinBudget(Extract(front, given, limits), front, last, given, limits);
    }
  }

  // ---- how each page is read ----------------------------------------------------------

  /**
   How one planned page is read.  A text layer is taken as it is.  OCR reads the pages planned for
   it, while it is there, and its text is taken if it is usable.  Every other page goes to the vision
   model if there is a gateway, a permitting decision and room under the cap; the transcript is taken
   if the call succeeds.  A page that nothing could read is not in the result.
   */
  predicate ReadAsPlanned(o: Outcome, plan: PagePlan, given: Conditions, room: bool) {
    var page := plan.page;
    var read := plan.how == LocalOcr && given.ocrAvailable;
    var usable := read && given.usableOcr(page).Some?;
    var sent := plan.how != DigitalText && !usable && room && given.hasGateway && given.permitsPaidCall;
    var transcript := if given.route.Usable(BudgetPolicy.Vision) && given.vision(page)(1).error == NoError
                      then Some(given.vision(page)(1).text) else None;
    && (page in o.read <==> read)
    && (page in o.seen <==> sent)
    && (if plan.how == DigitalText then IsExtracted(o.pages, page, Some(PageExtraction(page, DigitalText, given.digitalText(page))))
        else if usable then IsExtracted(o.pages, page, Some(PageExtraction(page, LocalOcr, given.usableOcr(page).value)))
        else if sent && transcript.Some? then IsExtracted(o.pages, page, Some(PageExtraction(page, Vision, transcript.value)))
        else IsExtracted(o.pages, page, None))
  }

  /** The one extraction of the page, or none. */
  predicate IsExtracted(pages: seq<PageExtraction>, page: nat, x: Option<PageExtraction>) {
    && (x.Some? ==> x.value in pages)
    && forall y :: y in pages && y.page == page ==> x == Some(y)
  }

  lemma NewPageIsReadAsPlanned(o: Outcome, plan: PagePlan, given: Conditions, limits: Limits)
    requires plan.page !in o.read && plan.page !in o.seen && forall x :: x in o.pages ==> x.page != plan.page
    ensures ReadAsPlanned(ExtractPage(o, plan, given, limits), plan, given, |o.seen| < limits.maxVisionPages)
  {
    OneAttempt(given.route, BudgetPolicy.Vision, given.vision(plan.page));
  }

  /** Reading one page changes nothing about the others. */
  lemma OtherPagesStay(o: Outcome, plan: PagePlan, other: PagePlan, given: Conditions, limits: Limits, room: bool)
    requires ReadAsPlanned(o, other, given, room) && other.page != plan.page
    ensures ReadAsPlanned(ExtractPage(o, plan, given, limits), other, given, room)
  {
    var after := ExtractPage(o, plan, given, limits);
    assert after.read == o.read || after.read == o.read + [plan.page];
    assert after.seen == o.seen || after.seen == o.seen + [plan.page];
    assert after.pages == o.pages || (|after.pages| == |o.pages| + 1 && after.pages[..|o.pages|] == o.pages
                                      && after.pages[|o.pages|].page == plan.page);
    forall y ensures y in after.pages && y.page == other.page <==> y in o.pages && y.page == other.page {
    }
  }

  lemma {:induction false} PageNumbersHold(pages: seq<PageExtraction>)
    ensures forall x :: x in pages ==> x.page in PageNumbers(pages)
  {
    if |pages| > 0 {
      PageNumbersHold(pages[..|pages| - 1]);
    }
  }

  lemma UnplannedIsNew(plans: seq<PagePlan>, page: nat, given: Conditions, limits: Limits)
    requires NoRepeat(Pages(plans)) && page !in Pages(plans)
    ensures var o := Extract(plans, given, limits);
            page !in o.read && page !in o.seen && forall x :: x in o.pages ==> x.page != page
  {
    RunIsWithinBudget(plans, given, limits);
    PageNumbersHold(Extract(plans, given, limits).pages);
  }

  /** In every run, every planned page is read as planned; there is room for it while the pages before it left some. */
  lemma {:induction false} EveryPageIsReadAsPlanned(plans: seq<PagePlan>, given: Conditions, limits: Limits, i: nat)
    requires NoRepeat(Pages(plans)) && i < |plans|
    ensures ReadAsPlanned(Extract(plans, given, limits), plans[i], given, |Extract(plans[..i], given, limits).seen| < limits.maxVisionPages)
  {
    var front, last := plans[..|plans| - 1], plans[|plans| - 1];
    NoRepeatSnoc(Pages(front), last.page);
    if i < |front| {
      EveryPageIsReadAsPlanned(front, given, limits, i);
      assert front[..i] == plans[..i];
      PlannedPage(front, i);
      OtherPagesStay(Extract(front, given, limits), last, plans[i], given, limits, |Extract(front[..i], given, limits).seen| < limits.maxVisionPages);
    } else {
      UnplannedIsNew(front, last.page, given, limits);
      NewPageIsReadAsPlanned(Extract(front, given, limits), last, given, limits);
      assert plans[..i] == front;
    }
  }

  lemma {:induction false} PlannedPage(plans: seq<PagePlan>, i: nat)
    requires i < |plans|
    ensures plans[i].page in Pages(plans)
  {
    if i < |plans| - 1 {
      PlannedPage(plans[..|plans| - 1], i);
    }
  }

  /** One call on record for each page sent, if the vision alias can be used at all: that page's own, at the alias' rates. */
  predicate CallsAreRecorded(o: Outcome, given: Conditions) {
    if !given.route.Usable(BudgetPolicy.Vision) then |o.calls| == 0
    else
      && |o.calls| == |o.seen|
      && forall i :: 0 <= i < |o.seen| ==>
           && o.calls[i].alias == BudgetPolicy.Vision
           && Records(o.calls[i], given.vision(o.seen[i])(1), given.route.catalog[BudgetPolicy.Vision])
  }

  lemma {:induction false} EveryCallIsRecorded(plans: seq<PagePlan>, given: Conditions, limits: Limits)
    ensures CallsAreRecorded(Extract(plans, given, limits), given)
  {
    if |plans| > 0 {
      var front, last := plans[..|plans| - 1], plans[|plans| - 1];
      EveryCallIsRecorded(front, given, limits);
      OneAttempt(given.route, BudgetPolicy.Vision, given.vision(last.page));
    }
  }
}
