/**
 * The paginated scrape: extract the current page, append what it gave, stop
 * at the last page, at the announced total or after too many consecutive
 * failures, otherwise navigate to the next page.
 *
 * Each pass of the loop is driven by a `Round`: what extraction resolves to
 * on the page the browser is on, and what navigation observes. The loop as
 * written is modelled next to the corrected one, which counts a navigation
 * failure after a page with data towards the limit.
 */
module PaginationLoop {
  import opened Wrappers
  import opened Listing
  import opened Pagination

  /** Consecutive failures that end the scrape. */
  const MaxConsecutiveFailures: nat := 2

  /** What one pass of the loop sees. */
  datatype Round = Round(page: PageValue, nav: NavObservation)

  /**
   * The loop's variables: `allData`, `currentPage`, `consecutiveFailures`,
   * `isLastPage`, whether `goToNextPage` rejected (the exception leaves the
   * loop for the catch at pagination.js:540), and the number of passes made
   * so far.
   */
  datatype LoopState = LoopState(allData: seq<Record>, currentPage: nat, failures: nat, done: bool, escaped: bool, passes: nat)

  /** The state before the first pass. */
  const Initial: LoopState := LoopState([], 1, 0, false, false, 0)

  /** What `scrapWithPagination` returns once the loop has ended: `allData`, or `[]` from the catch. */
  function Returned(t: LoopState): seq<Record> {
    if t.escaped then [] else t.allData
  }

  /**
   * When the failure counter goes back to zero: after every page that gave
   * data, as written, or only after a page that gave data and a successful
   * navigation, as evidently intended.
   */
  datatype FailureReset = ResetOnData | ResetOnProgress

  /** `Array.isArray(pageData) && pageData.length > 0`. */
  predicate HasItems(v: PageValue) {
    v.Listings? && |v.items| > 0
  }

  /**
   * The pass calls `goToNextPage`: after a page with data that is neither the
   * last page nor completes the total, or after an empty page below the
   * failure limit.
   */
  predicate Navigates(s: LoopState, r: Round, total: int, maxPages: int) {
    if HasItems(r.page) then
      !(s.currentPage >= maxPages || (total > 0 && |s.allData + r.page.items| >= total))
    else
      s.failures + 1 < MaxConsecutiveFailures
  }

  /** One pass of the loop. */
  function Step(s: LoopState, r: Round, total: int, maxPages: int, reset: FailureReset): (t: LoopState)
    requires !s.done
    ensures t.passes == s.passes + 1
    ensures t.allData == s.allData + ItemsOrEmpty(r.page)
    ensures t.currentPage == s.currentPage || (t.currentPage == s.currentPage + 1 && !t.done)
    ensures t.escaped ==> t.done
  {
    var next := s.passes + 1;
    if HasItems(r.page) then
      var data := s.allData + r.page.items;
      var fails := if reset == ResetOnData then 0 else s.failures;
      if s.currentPage >= maxPages || (total > 0 && |data| >= total) then
        LoopState(data, s.currentPage, fails, true, false, next)
      else if Rejects(r.nav) then
        LoopState(data, s.currentPage, fails, true, true, next)
      else if Advances(r.nav, s.currentPage + 1) then
        LoopState(data, s.currentPage + 1, if reset == ResetOnProgress then 0 else fails, false, false, next)
      else
        LoopState(data, s.currentPage, fails + 1, fails + 1 >= MaxConsecutiveFailures, false, next)
    else
      var fails := s.failures + 1;
      if fails >= MaxConsecutiveFailures then
        LoopState(s.allData, s.currentPage, fails, true, false, next)
      else if Rejects(r.nav) then
        LoopState(s.allData, s.currentPage, fails, true, true, next)
      else if Advances(r.nav, s.currentPage + 1) then
        LoopState(s.allData, s.currentPage + 1, fails, false, false, next)
      else
        LoopState(s.allData, s.currentPage, fails, true, false, next)
  }

  /**
   * When one pass ends the loop: the last page or the announced total reached
   * after a page with data; an empty page followed by a failed navigation or
   * by the second consecutive failure; and `goToNextPage` rejecting, which
   * leaves the loop exactly when the pass navigates. As written, a page with
   * data never ends the loop by counting failures.
   */
  lemma StepStops(s: LoopState, r: Round, total: int, maxPages: int, reset: FailureReset)
    requires !s.done
    ensures var t := Step(s, r, total, maxPages, reset);
      && (t.currentPage == s.currentPage + 1 ==> Advances(r.nav, s.currentPage + 1))
      && (HasItems(r.page) && s.currentPage >= maxPages ==> t.done)
      && (HasItems(r.page) && total > 0 && |t.allData| >= total ==> t.done)
      && (!HasItems(r.page) && !Advances(r.nav, s.currentPage + 1) ==> t.done)
      && (!HasItems(r.page) && s.failures + 1 >= MaxConsecutiveFailures ==> t.done)
      && (t.escaped <==> Navigates(s, r, total, maxPages) && Rejects(r.nav))
      && (reset == ResetOnData && HasItems(r.page) && t.done && !t.escaped ==>
            s.currentPage >= maxPages || (total > 0 && |t.allData| >= total))
  {
  }

  /** Passes driven by `rounds` until the loop ends or the rounds run out. */
  function Run(s: LoopState, rounds: seq<Round>, total: int, maxPages: int, reset: FailureReset): (t: LoopState)
    ensures s.passes <= t.passes <= s.passes + |rounds|
    ensures s.done ==> t == s
    ensures !t.done ==> t.passes == s.passes + |rounds|
    decreases |rounds|
  {
    if s.done || rounds == [] then s
    else Run(Step(s, rounds[0], total, maxPages, reset), rounds[1..], total, maxPages, reset)
  }

  /** The items of the pages that gave data, in order. */
  function Collected(rounds: seq<Round>): seq<Record> {
    if rounds == [] then []
    else ItemsOrEmpty(rounds[0].page) + Collected(rounds[1..])
  }

  /** The body of `scrapWithPagination`'s loop as written: one pass. */
  method Pass(allData: seq<Record>, currentPage: nat, consecutiveFailures: nat, round: Round,
                totalListings: int, maxPages: int, ghost passes: nat)
    returns (data: seq<Record>, page: nat, failures: nat, isLastPage: bool, escaped: bool)
    ensures LoopState(data, page, failures, isLastPage, escaped, passes + 1)
      == Step(LoopState(allData, currentPage, consecutiveFailures, false, false, passes), round, totalListings, maxPages, ResetOnData)
  {
    ghost var t := Step(LoopState(allData, currentPage, consecutiveFailures, false, false, passes), round, totalListings, maxPages, ResetOnData);
    data, page, failures, isLastPage, escaped := allData, currentPage, consecutiveFailures, false, false;
    var pageData := round.page;
    if pageData.Listings? && |pageData.items| > 0 {
      data := data + pageData.items;
      failures := 0;
      if page >= maxPages {
        isLastPage := true;
      } else if totalListings > 0 && |data| >= totalListings {
        isLastPage := true;
      } else {
        var nextPageResult, _, rejected := GoToNextPage(round.nav, page);
        if rejected {
          isLastPage, escaped := true, true;
        } else if nextPageResult.success {
          page := nextPageResult.currentPage;
        } else {
          failures := failures + 1;
          if failures >= MaxConsecutiveFailures {
            isLastPage := true;
          }
        }
      }
    } else {
      failures := failures + 1;
      if failures >= MaxConsecutiveFailures {
        isLastPage := true;
      } else {
        var nextPageResult, _, rejected := GoToNextPage(round.nav, page);
        if rejected {
          isLastPage, escaped := true, true;
        } else if nextPageResult.success {
          page := nextPageResult.currentPage;
        } else {
          isLastPage := true;
        }
      }
    }
  }

  /**
   * `scrapWithPagination`'s loop as written, driven by a finite supply of
   * rounds; `exhausted` reports that the supply ran out before the loop ended,
   * and `escaped` that `goToNextPage` rejected.
   */
  method PageLoop(totalListings: int, maxPages: int, rounds: seq<Round>)
    returns (allData: seq<Record>, currentPage: nat, exhausted: bool, escaped: bool)
    ensures var t := Run(Initial, rounds, totalListings, maxPages, ResetOnData);
      allData == t.allData && currentPage == t.currentPage && exhausted == !t.done && escaped == t.escaped
  {
    allData := [];
    currentPage := 1;
    escaped := false;
    var isLastPage := false;
    var consecutiveFailures: nat := 0;
    var i := 0;
    ghost var s := Initial;
    assert rounds[0..] == rounds;
    while !isLastPage && i < |rounds|
      invariant 0 <= i <= |rounds|
      invariant s == LoopState(allData, currentPage, consecutiveFailures, isLastPage, escaped, i)
      invariant escaped ==> isLastPage
      invariant Run(Initial, rounds, totalListings, maxPages, ResetOnData)
        == Run(s, rounds[i..], totalListings, maxPages, ResetOnData)
    {
      assert s == LoopState(allData, currentPage, consecutiveFailures, false, false, i);
      var round := rounds[i];
      ghost var s1 := Step(s, round, totalListings, maxPages, ResetOnData);
      assert rounds[i..][0] == round && rounds[i..][1..] == rounds[i + 1..];
      assert Run(s, rounds[i..], totalListings, maxPages, ResetOnData)
        == Run(s1, rounds[i + 1..], totalListings, maxPages, ResetOnData);
      allData, currentPage, consecutiveFailures, isLastPage, escaped :=
        Pass(allData, currentPage, consecutiveFailures, round, totalListings, maxPages, i);
      i := i + 1;
      s := s1;
    }
    exhausted := !isLastPage;
    assert rounds[i..] == [] || isLastPage;
  }

  /** What the loop accumulates is exactly the data of the pages it passed through, in order. */
  lemma {:induction false} RunCollects(s: LoopState, rounds: seq<Round>, total: int, maxPages: int, reset: FailureReset)
    ensures var t := Run(s, rounds, total, maxPages, reset);
      t.allData == s.allData + Collected(rounds[..t.passes - s.passes])
    decreases |rounds|
  {
    var t := Run(s, rounds, total, maxPages, reset);
    if s.done || rounds == [] {
      assert rounds[..0] == [];
    } else {
      var s1 := Step(s, rounds[0], total, maxPages, reset);
      RunCollects(s1, rounds[1..], total, maxPages, reset);
      CollectedAfterFirst(s.allData, s1.allData, t.allData, rounds, t.passes - s.passes);
    }
  }

  /**
   * The exception is caught at pagination.js:540 and `[]` is returned: an
   * ad already collected is lost when the next navigation rejects.
   */
  lemma EscapeLosesCollected(ad: Record, nav: NavObservation)
    requires Rejects(nav)
    ensures var t := Run(Initial, [Round(Listings([ad]), nav)], -1, 10, ResetOnData);
      t.done && t.escaped && t.allData == [ad] && Returned(t) == []
  {
  }

  /**
   * The inductive step of `RunCollects`, on the data alone: data collected by
   * the first round and then by the next `k - 1` is the data of the first `k`.
   */
  lemma CollectedAfterFirst(before: seq<Record>, after1: seq<Record>, after: seq<Record>, rounds: seq<Round>, k: nat)
    requires 0 < k <= |rounds|
    requires after1 == before + ItemsOrEmpty(rounds[0].page)
    requires after == after1 + Collected(rounds[1..][..k - 1])
    ensures after == before + Collected(rounds[..k])
  {
    CollectedFirst(rounds, k);
    assert (before + ItemsOrEmpty(rounds[0].page)) + Collected(rounds[1..][..k - 1])
      == before + (ItemsOrEmpty(rounds[0].page) + Collected(rounds[1..][..k - 1]));
  }

  /** The data of the first `k` rounds: the first round's, then the rest's. */
  lemma CollectedFirst(rounds: seq<Round>, k: nat)
    requires 0 < k <= |rounds|
    ensures Collected(rounds[..k]) == ItemsOrEmpty(rounds[0].page) + Collected(rounds[1..][..k - 1])
  {
    assert rounds[..k][0] == rounds[0];
    assert rounds[..k][1..] == rounds[1..][..k - 1];
  }

  /**
   * The potential that bounds the loop as written when the total is known:
   * every pass that does not end the loop either adds data (two units per
   * record left to collect) or uses up a failure.
   */
  function TotalPotential(s: LoopState, total: int): int {
    2 * (total - |s.allData|) + (MaxConsecutiveFailures - s.failures)
  }

  /** One pass that does not end the loop lowers the potential and keeps the failure count below the limit. */
  lemma StepLowersTotalPotential(s: LoopState, r: Round, total: int, maxPages: int)
    requires !s.done && s.failures < MaxConsecutiveFailures && |s.allData| < total
    ensures var t := Step(s, r, total, maxPages, ResetOnData);
      !t.done ==> (t.failures < MaxConsecutiveFailures && |t.allData| < total
                   && TotalPotential(t, total) < TotalPotential(s, total))
  {
  }

  /** From any running state, enough rounds end the loop as written when the total is known. */
  lemma {:induction false} TotalKnownStopsFrom(s: LoopState, rounds: seq<Round>, total: int, maxPages: int)
    requires !s.done && s.failures < MaxConsecutiveFailures && |s.allData| < total
    requires |rounds| >= TotalPotential(s, total)
    ensures Run(s, rounds, total, maxPages, ResetOnData).done
    decreases |rounds|
  {
    var t := Step(s, rounds[0], total, maxPages, ResetOnData);
    StepLowersTotalPotential(s, rounds[0], total, maxPages);
    if !t.done {
      TotalKnownStopsFrom(t, rounds[1..], total, maxPages);
    }
  }

  /**
   * When the page announces a total, the loop as written ends within
   * `2 * total + 2` passes, whatever the pages and the navigation do.
   */
  lemma TotalKnownStops(rounds: seq<Round>, total: int, maxPages: int)
    requires total > 0 && |rounds| >= 2 * total + 2
    ensures Run(Initial, rounds, total, maxPages, ResetOnData).done
  {
    TotalKnownStopsFrom(Initial, rounds, total, maxPages);
  }

  /** A page with data followed by a navigation that throws and reports a failure, again and again. */
  predicate StuckRounds(rounds: seq<Round>) {
    forall i | 0 <= i < |rounds| :: HasItems(rounds[i].page) && rounds[i].nav.threw && !rounds[i].nav.screenshotRejects
  }

  /**
   * As written, a page with data resets the failure counter before the
   * navigation failure is counted, so that failure only ever brings the
   * counter to 1: the check against the limit in that branch never fires.
   * Without an announced total and with more than one page, a browser that
   * keeps returning data while navigation keeps failing is never left: every
   * number of passes leaves the loop running, on page 1.
   */
  lemma {:induction false} StuckLoopNeverEnds(s: LoopState, rounds: seq<Round>, total: int, maxPages: int)
    requires !s.done && s.currentPage == 1 && s.failures < MaxConsecutiveFailures
    requires total <= 0 && maxPages > 1
    requires StuckRounds(rounds)
    ensures !Run(s, rounds, total, maxPages, ResetOnData).done
    ensures Run(s, rounds, total, maxPages, ResetOnData).currentPage == 1
    decreases |rounds|
  {
    if rounds != [] {
      var t := Step(s, rounds[0], total, maxPages, ResetOnData);
      assert t.failures == 1 && !t.done && t.currentPage == 1;
      assert StuckRounds(rounds[1..]) by {
        forall i | 0 <= i < |rounds| - 1
          ensures HasItems(rounds[1..][i].page) && rounds[1..][i].nav.threw && !rounds[1..][i].nav.screenshotRejects
        {
          assert rounds[1..][i] == rounds[i + 1];
        }
      }
      StuckLoopNeverEnds(t, rounds[1..], total, maxPages);
    }
  }

  /** The rounds of the stuck scrape: the same page of data each time, and a navigation that throws. */
  lemma StuckScrapeCollectsDuplicates(ad: Record, nav: NavObservation, n: nat)
    requires nav.threw && !nav.screenshotRejects
    ensures var rounds := seq(n, i => Round(Listings([ad]), nav));
      var t := Run(Initial, rounds, -1, 10, ResetOnData);
      !t.done && t.passes == n && t.allData == seq(n, i => ad)
  {
    var rounds := seq(n, i => Round(Listings([ad]), nav));
    StuckLoopNeverEnds(Initial, rounds, -1, 10);
    RunCollects(Initial, rounds, -1, 10, ResetOnData);
    CollectedRepeats(ad, nav, n);
    assert rounds[..n] == rounds;
  }

  /** The data of `n` identical one-record pages is that record `n` times. */
  lemma {:induction false} CollectedRepeats(ad: Record, nav: NavObservation, n: nat)
    ensures Collected(seq(n, i => Round(Listings([ad]), nav))) == seq(n, i => ad)
  {
    var rounds := seq(n, i => Round(Listings([ad]), nav));
    if n > 0 {
      CollectedRepeats(ad, nav, n - 1);
      assert rounds[1..] == seq(n - 1, i => Round(Listings([ad]), nav));
      assert seq(n, i => ad) == [ad] + seq(n - 1, i => ad);
    }
  }

  /**
   * The potential that bounds the corrected loop: three units per page left
   * before `maxPages`, plus the failures left before the limit.
   */
  function PagePotential(s: LoopState, maxPages: int): nat
    requires s.failures <= MaxConsecutiveFailures
  {
    3 * (if s.currentPage < maxPages then maxPages - s.currentPage else 0) + (MaxConsecutiveFailures - s.failures)
  }

  /** One corrected pass that does not end the loop lowers the page potential. */
  lemma StepLowersPagePotential(s: LoopState, r: Round, total: int, maxPages: int)
    requires !s.done && s.failures < MaxConsecutiveFailures
    ensures var t := Step(s, r, total, maxPages, ResetOnProgress);
      && t.failures <= MaxConsecutiveFailures
      && (!t.done ==> t.failures < MaxConsecutiveFailures && PagePotential(t, maxPages) < PagePotential(s, maxPages))
  {
  }

  /** One corrected pass keeps the loop within `PassBound(maxPages)` passes. */
  lemma CorrectedPassWithinBound(s: LoopState, r: Round, total: int, maxPages: int)
    requires !s.done && s.failures < MaxConsecutiveFailures
    requires s.passes + PagePotential(s, maxPages) <= PassBound(maxPages)
    ensures var t := Step(s, r, total, maxPages, ResetOnProgress);
      && t.failures <= MaxConsecutiveFailures
      && t.passes <= PassBound(maxPages)
      && (!t.done ==> t.failures < MaxConsecutiveFailures
                      && t.passes + PagePotential(t, maxPages) <= PassBound(maxPages)
                      && PagePotential(t, maxPages) < PagePotential(s, maxPages))
  {
    StepLowersPagePotential(s, r, total, maxPages);
  }

  /** The first `n` rounds of an endless supply. */
  function Prefix(rounds: nat -> Round, n: nat): (rs: seq<Round>)
    ensures |rs| == n && forall i | 0 <= i < n :: rs[i] == rounds(i)
  {
    seq(n, i requires 0 <= i => rounds(i))
  }

  /** The bound on the corrected loop's passes. */
  function PassBound(maxPages: int): nat {
    3 * (if 1 < maxPages then maxPages - 1 else 0) + MaxConsecutiveFailures
  }

  /** The corrected loop body: one pass. */
  method PassCorrected(allData: seq<Record>, currentPage: nat, consecutiveFailures: nat, round: Round,
                totalListings: int, maxPages: int, ghost passes: nat)
    returns (data: seq<Record>, page: nat, failures: nat, isLastPage: bool, escaped: bool)
    ensures LoopState(data, page, failures, isLastPage, escaped, passes + 1)
      == Step(LoopState(allData, currentPage, consecutiveFailures, false, false, passes), round, totalListings, maxPages, ResetOnProgress)
  {
    ghost var t := Step(LoopState(allData, currentPage, consecutiveFailures, false, false, passes), round, totalListings, maxPages, ResetOnProgress);
    data, page, failures, isLastPage, escaped := allData, currentPage, consecutiveFailures, false, false;
    var pageData := round.page;
    if pageData.Listings? && |pageData.items| > 0 {
      data := data + pageData.items;
      if page >= maxPages {
        isLastPage := true;
      } else if totalListings > 0 && |data| >= totalListings {
        isLastPage := true;
      } else {
        var nextPageResult, _, rejected := GoToNextPage(round.nav, page);
        if rejected {
          isLastPage, escaped := true, true;
        } else if nextPageResult.success {
          page := nextPageResult.currentPage;
          failures := 0;
        } else {
          failures := failures + 1;
          if failures >= MaxConsecutiveFailures {
            isLastPage := true;
          }
        }
      }
    } else {
      failures := failures + 1;
      if failures >= MaxConsecutiveFailures {
        isLastPage := true;
      } else {
        var nextPageResult, _, rejected := GoToNextPage(round.nav, page);
        if rejected {
          isLastPage, escaped := true, true;
        } else if nextPageResult.success {
          page := nextPageResult.currentPage;
        } else {
          isLastPage := true;
        }
      }
    }
  }

  /**
   * The loop with the failure counter reset only after a successful
   * navigation from a page with data. It ends for every supply of rounds,
   * within `PassBound(maxPages)` passes. A round stands for a pass whose
   * `await exhaustiveScroll(page)` (pagination.js:464) has resolved; a scroll
   * that stays pending (`PageScroller.ExhaustiveScroll` returning `None`)
   * stalls the pass itself and is outside this bound.
   */
  method PageLoopCorrected(totalListings: int, maxPages: int, rounds: nat -> Round)
    returns (allData: seq<Record>, currentPage: nat, passes: nat, escaped: bool)
    ensures passes <= PassBound(maxPages)
    ensures var t := Run(Initial, Prefix(rounds, passes), totalListings, maxPages, ResetOnProgress);
      t.done && allData == t.allData && currentPage == t.currentPage && escaped == t.escaped
    ensures allData == Collected(Prefix(rounds, passes))
  {
    allData := [];
    currentPage := 1;
    escaped := false;
    var isLastPage := false;
    var consecutiveFailures: nat := 0;
    passes := 0;
    ghost var s := Initial;
    while !isLastPage
      invariant s == LoopState(allData, currentPage, consecutiveFailures, isLastPage, escaped, passes)
      invariant escaped ==> isLastPage
      invariant consecutiveFailures <= MaxConsecutiveFailures
      invariant !isLastPage ==> consecutiveFailures < MaxConsecutiveFailures
      invariant passes + PagePotential(s, maxPages) <= PassBound(maxPages) || isLastPage
      invariant passes <= PassBound(maxPages)
      invariant Run(Initial, Prefix(rounds, passes), totalListings, maxPages, ResetOnProgress) == s
      decreases if isLastPage then 0 else 1 + PagePotential(s, maxPages)
    {
      assert s == LoopState(allData, currentPage, consecutiveFailures, false, false, passes);
      var round := rounds(passes);
      ghost var s1 := Step(s, round, totalListings, maxPages, ResetOnProgress);
      CorrectedPassWithinBound(s, round, totalListings, maxPages);
      ExtendRun(rounds, passes, totalListings, maxPages);
      allData, currentPage, consecutiveFailures, isLastPage, escaped :=
        PassCorrected(allData, currentPage, consecutiveFailures, round, totalListings, maxPages, passes);
      passes := passes + 1;
      s := s1;
    }
    RunCollects(Initial, Prefix(rounds, passes), totalListings, maxPages, ResetOnProgress);
    assert Prefix(rounds, passes)[..passes] == Prefix(rounds, passes);
  }

  /** Running one more round from where `n` rounds left the loop. */
  lemma {:induction false} ExtendRun(rounds: nat -> Round, n: nat, total: int, maxPages: int)
    requires !Run(Initial, Prefix(rounds, n), total, maxPages, ResetOnProgress).done
    ensures var s := Run(Initial, Prefix(rounds, n), total, maxPages, ResetOnProgress);
      Run(Initial, Prefix(rounds, n + 1), total, maxPages, ResetOnProgress)
        == Step(s, rounds(n), total, maxPages, ResetOnProgress)
  {
    RunSnoc(Initial, Prefix(rounds, n), rounds(n), total, maxPages, ResetOnProgress);
    PrefixSnoc(rounds, n);
  }

  /** One round more of the supply is one more round at the end of the prefix. */
  lemma PrefixSnoc(rounds: nat -> Round, n: nat)
    ensures Prefix(rounds, n + 1) == Prefix(rounds, n) + [rounds(n)]
  {
  }

  /** Running `rs` then one more round is running `rs + [r]`. */
  lemma {:induction false} RunSnoc(s: LoopState, rs: seq<Round>, r: Round, total: int, maxPages: int, reset: FailureReset)
    requires !Run(s, rs, total, maxPages, reset).done
    ensures Run(s, rs + [r], total, maxPages, reset) == Step(Run(s, rs, total, maxPages, reset), r, total, maxPages, reset)
    decreases |rs|
  {
    if rs == [] {
      assert rs + [r] == [r];
      assert [r][1..] == [];
    } else {
      assert (rs + [r])[0] == rs[0];
      assert (rs + [r])[1..] == rs[1..] + [r];
      RunSnoc(Step(s, rs[0], total, maxPages, reset), rs[1..], r, total, maxPages, reset);
    }
  }

  /**
   * `scrapWithPagination` as written: the announced total, the page count,
   * then the loop.
   */
  method ScrapWithPagination(query: SummaryQuery, elements: Option<seq<string>>,
                             pagerThrew: bool, divider: Option<string>, buttonTexts: seq<string>,
                             rounds: seq<Round>)
    returns (allData: seq<Record>, totalListings: int, maxPages: int, exhausted: bool)
    ensures totalListings == TotalAfter(SelectorStage(query, false, 0), elements)
    ensures IsMaxPages(pagerThrew, divider, buttonTexts, maxPages)
    ensures var t := Run(Initial, rounds, totalListings, maxPages, ResetOnData);
      allData == Returned(t) && exhausted == !t.done
    ensures var t := Run(Initial, rounds, totalListings, maxPages, ResetOnData);
      allData == if t.escaped then [] else Collected(rounds[..t.passes])
  {
    totalListings := GetTotalListings(query, elements);
    maxPages := GetMaxPages(pagerThrew, divider, buttonTexts);
    var currentPage, escaped;
    allData, currentPage, exhausted, escaped := PageLoop(totalListings, maxPages, rounds);
    if escaped {
      allData := [];
    }
    RunCollects(Initial, rounds, totalListings, maxPages, ResetOnData);
  }

  /**
   * `scrapWithPagination` with both corrections: a rejected summary selector
   * is passed over, and the loop counts navigation failures after pages with
   * data. It ends for every supply of rounds.
   */
  method ScrapWithPaginationCorrected(query: SummaryQuery, elements: Option<seq<string>>,
                                      pagerThrew: bool, divider: Option<string>, buttonTexts: seq<string>,
                                      rounds: nat -> Round)
    returns (allData: seq<Record>, totalListings: int, maxPages: int, passes: nat)
    ensures totalListings == TotalAfter(SelectorStage(query, true, 0), elements)
    ensures IsMaxPages(pagerThrew, divider, buttonTexts, maxPages)
    ensures passes <= PassBound(maxPages)
    ensures var t := Run(Initial, Prefix(rounds, passes), totalListings, maxPages, ResetOnProgress);
      t.done && allData == Returned(t)
    ensures var t := Run(Initial, Prefix(rounds, passes), totalListings, maxPages, ResetOnProgress);
      allData == if t.escaped then [] else Collected(Prefix(rounds, passes))
  {
    totalListings := GetTotalListingsSkippingRejected(query, elements);
    maxPages := GetMaxPages(pagerThrew, divider, buttonTexts);
    var currentPage, escaped;
    allData, currentPage, passes, escaped := PageLoopCorrected(totalListings, maxPages, rounds);
    if escaped {
      allData := [];
    }
  }
}
