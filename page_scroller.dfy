/**
 * Scrolling the result list until it stops growing, clicking a "load more"
 * button, and counting the listing cards on the page. The browser is an
 * oracle: the page metrics after each scroll tick, the elements each selector
 * matches, the visible count each selector yields and whether each click
 * succeeds are inputs.
 */
module PageScroller {
  import opened Wrappers

  // ---------------------------------------------------------------------
  // The scroll step timer
  // ---------------------------------------------------------------------

  /** Pixels scrolled on every tick. */
  const Distance: int := 300
  /** Consecutive ticks without a height change that end the scroll. */
  const MaxUnchangedCount: int := 5

  /** What the page reports right after a tick's `scrollBy`. */
  datatype Metrics = Metrics(scrollHeight: int, innerHeight: int, scrollY: int)

  /** The bottom test: the whole document fits above the bottom of the viewport. */
  predicate AtBottom(m: Metrics) {
    m.scrollHeight <= m.innerHeight + m.scrollY
  }

  /** What one tick decides. */
  datatype StepOutcome = Bottom | Settle | KeepScrolling

  /** The closure state of the scroll timer. */
  class ScrollSession {
    var totalHeight: int
    var lastScrollHeight: int
    var unchangedCount: int

    constructor()
      ensures totalHeight == 0 && lastScrollHeight == 0 && unchangedCount == 0
    {
      totalHeight := 0;
      lastScrollHeight := 0;
      unchangedCount := 0;
    }

    /**
     * One tick of `scrollStep`: the bottom test comes first and stops the
     * timer; otherwise an unchanged height counts towards the limit and a
     * changed one resets the count and is remembered.
     */
    method Step(m: Metrics) returns (o: StepOutcome)
      modifies this
      ensures totalHeight == old(totalHeight) + Distance
      ensures o == Bottom <==> AtBottom(m)
      ensures AtBottom(m) ==>
        lastScrollHeight == old(lastScrollHeight) && unchangedCount == old(unchangedCount)
      ensures !AtBottom(m) ==> lastScrollHeight == m.scrollHeight
      ensures !AtBottom(m) && m.scrollHeight == old(lastScrollHeight) ==> unchangedCount == old(unchangedCount) + 1
      ensures !AtBottom(m) && m.scrollHeight != old(lastScrollHeight) ==> unchangedCount == 0
      ensures o == Settle <==>
        !AtBottom(m) && m.scrollHeight == old(lastScrollHeight) && unchangedCount >= MaxUnchangedCount
    {
      totalHeight := totalHeight + Distance;
      if AtBottom(m) {
        return Bottom;
      }
      if m.scrollHeight == lastScrollHeight {
        unchangedCount := unchangedCount + 1;
        if unchangedCount >= MaxUnchangedCount {
          return Settle;
        }
      } else {
        unchangedCount := 0;
        lastScrollHeight := m.scrollHeight;
      }
      o := KeepScrolling;
    }
  }

  /** The height remembered before tick `n`: 0 at the start, then the previous tick's height. */
  function LastHeight(ticks: seq<Metrics>, n: nat): int
    requires n <= |ticks|
  {
    if n == 0 then 0 else ticks[n - 1].scrollHeight
  }

  /** Tick `j` reports the same height as the one remembered before it. */
  predicate Unchanged(ticks: seq<Metrics>, j: nat)
    requires j < |ticks|
  {
    ticks[j].scrollHeight == LastHeight(ticks, j)
  }

  /** The number of consecutive unchanged ticks that end just before tick `n`. */
  function UnchangedRun(ticks: seq<Metrics>, n: nat): (r: nat)
    requires n <= |ticks|
    ensures r <= n
  {
    if n == 0 then 0
    else if Unchanged(ticks, n - 1) then UnchangedRun(ticks, n - 1) + 1
    else 0
  }

  /** Tick `k` is the one at which the unchanged count reaches its limit. */
  predicate SettledAt(ticks: seq<Metrics>, k: nat)
    requires k < |ticks|
  {
    UnchangedRun(ticks, k + 1) >= MaxUnchangedCount
  }

  /** How the scroll promise ended within the ticks observed. */
  datatype ScrollEnd =
    | ReachedBottom(tick: nat)
    | HeightSettled(tick: nat, finalScrollTo: int)
    | StillScrolling

  /** No tick before `n` stops the timer. */
  predicate NoStopBefore(ticks: seq<Metrics>, n: nat)
    requires n <= |ticks|
  {
    forall j | 0 <= j < n :: !AtBottom(ticks[j]) && !SettledAt(ticks, j)
  }

  /**
   * The `setInterval(scrollStep, 200)` loop of `exhaustiveScroll`, run over the
   * metrics of successive ticks. It stops at the first tick that is at the
   * bottom or that completes five unchanged heights; in the second case it
   * scrolls once more to the document's height. `scrolled` is `totalHeight`.
   */
  method ScrollToEnd(ticks: seq<Metrics>) returns (end: ScrollEnd, scrolled: int)
    ensures end.ReachedBottom? ==>
      end.tick < |ticks| && NoStopBefore(ticks, end.tick) && AtBottom(ticks[end.tick])
    ensures end.HeightSettled? ==>
      end.tick < |ticks| && NoStopBefore(ticks, end.tick)
      && !AtBottom(ticks[end.tick]) && SettledAt(ticks, end.tick)
      && end.finalScrollTo == ticks[end.tick].scrollHeight
    ensures end.StillScrolling? <==> NoStopBefore(ticks, |ticks|)
    ensures scrolled == Distance * (if end.StillScrolling? then |ticks| else end.tick + 1)
  {
    var session := new ScrollSession();
    var i := 0;
    while i < |ticks|
      invariant 0 <= i <= |ticks|
      invariant session.totalHeight == Distance * i
      invariant session.lastScrollHeight == LastHeight(ticks, i)
      invariant session.unchangedCount == UnchangedRun(ticks, i) < MaxUnchangedCount
      invariant NoStopBefore(ticks, i)
    {
      var o := session.Step(ticks[i]);
      if o == Bottom {
        return ReachedBottom(i), session.totalHeight;
      }
      if o == Settle {
        return HeightSettled(i, ticks[i].scrollHeight), session.totalHeight;
      }
      i := i + 1;
    }
    end := StillScrolling;
    scrolled := session.totalHeight;
  }

  /** The run before tick `n` is at least `r` long exactly when the `r` ticks before `n` are all unchanged. */
  lemma {:induction false} RunAtLeast(ticks: seq<Metrics>, n: nat, r: nat)
    requires n <= |ticks|
    ensures UnchangedRun(ticks, n) >= r <==> r <= n && forall j | n - r <= j < n :: Unchanged(ticks, j)
  {
    if r > 0 && n > 0 && Unchanged(ticks, n - 1) {
      RunAtLeast(ticks, n - 1, r - 1);
    }
  }

  /** The timer settles at tick `k` exactly when ticks `k-4` to `k` all repeat the remembered height. */
  lemma SettledIffFiveUnchanged(ticks: seq<Metrics>, k: nat)
    requires k < |ticks|
    ensures SettledAt(ticks, k) <==> k >= 4 && forall j | k - 4 <= j <= k :: Unchanged(ticks, j)
  {
    RunAtLeast(ticks, k + 1, 5);
  }

  /**
   * The remembered height starts at 0, so on a page with content the first
   * tick always counts as a change: settling takes at least six ticks.
   */
  lemma SettlingTakesSixTicks(ticks: seq<Metrics>, k: nat)
    requires k < |ticks| && ticks[0].scrollHeight != 0
    requires SettledAt(ticks, k)
    ensures k >= 5
  {
    SettledIffFiveUnchanged(ticks, k);
    assert !Unchanged(ticks, 0);
  }

  // ---------------------------------------------------------------------
  // Elements, as the in-page scripts see them
  // ---------------------------------------------------------------------

  /**
   * One matched element: its tag name, whether `offsetParent` is non-null,
   * whether its computed `display` is `none`, and its `disabled` property.
   */
  datatype Element = Element(tagName: string, hasOffsetParent: bool, displayNone: bool, disabled: bool)

  /** The elements a selector matches; `None` when `querySelectorAll` throws. */
  type Query = string -> Option<seq<Element>>

  // ---------------------------------------------------------------------
  // The "load more" button
  // ---------------------------------------------------------------------

  const LoadMoreSelectors: seq<string> := [
    "button[class*=\"more\"]",
    "a[class*=\"more\"]",
    "[class*=\"load-more\"]",
    "[class*=\"show-more\"]",
    "button:not([disabled])[class*=\"siguiente\"]",
    "a[class*=\"siguiente\"]",
    "button:not([disabled])[class*=\"next\"]"
  ]

  /** A visible, enabled button or link. */
  predicate Clickable(e: Element) {
    e.hasOffsetParent && (e.tagName == "BUTTON" || e.tagName == "A") && !e.disabled
  }

  predicate HasClickable(els: seq<Element>) {
    exists j | 0 <= j < |els| :: Clickable(els[j])
  }

  /**
   * The in-page search of `tryClickLoadMore`: the index of the first selector,
   * in list order, that matches a clickable element. `matches` gives each
   * selector's elements.
   */
  method FindLoadMore(matches: string -> seq<Element>) returns (found: Option<nat>)
    ensures found.Some? ==>
      found.value < |LoadMoreSelectors| && HasClickable(matches(LoadMoreSelectors[found.value]))
      && forall i | 0 <= i < found.value :: !HasClickable(matches(LoadMoreSelectors[i]))
    ensures found.None? <==>
      forall i | 0 <= i < |LoadMoreSelectors| :: !HasClickable(matches(LoadMoreSelectors[i]))
  {
    for i := 0 to |LoadMoreSelectors|
      invariant forall k | 0 <= k < i :: !HasClickable(matches(LoadMoreSelectors[k]))
    {
      var els := matches(LoadMoreSelectors[i]);
      for j := 0 to |els|
        invariant forall k | 0 <= k < j :: !Clickable(els[k])
      {
        if Clickable(els[j]) {
          return Some(i);
        }
      }
    }
    found := None;
  }

  /** Clicks allowed before giving up. */
  const MaxClickAttempts: nat := 3

  /**
   * The click retry loop: click until one succeeds or three have failed.
   * `clickSucceeds(k)` says whether the `k`-th click (from 0) goes through.
   */
  method ClickWithRetry(clickSucceeds: nat -> bool) returns (success: bool, clicks: nat)
    ensures 1 <= clicks <= MaxClickAttempts
    ensures success <==> exists k | 0 <= k < MaxClickAttempts :: clickSucceeds(k)
    ensures success ==> clickSucceeds(clicks - 1)
    ensures forall k | 0 <= k < clicks - 1 :: !clickSucceeds(k)
  {
    success := false;
    var attempts: nat := 0;
    clicks := 0;
    while !success && attempts < MaxClickAttempts
      invariant attempts <= MaxClickAttempts
      invariant clicks == attempts + (if success then 1 else 0)
      invariant forall k | 0 <= k < attempts :: !clickSucceeds(k)
      invariant success ==> attempts < MaxClickAttempts && clickSucceeds(attempts)
      decreases MaxClickAttempts - attempts, if success then 0 else 1
    {
      clicks := clicks + 1;
      if clickSucceeds(attempts) {
        success := true;
      } else {
        attempts := attempts + 1;
      }
    }
  }

  /**
   * `tryClickLoadMore`: true exactly when the search finds a button, one of
   * at most three clicks on it succeeds and the scroll after the click does
   * not throw; false when nothing is found, every click fails, the search
   * itself throws (`searchThrows`) or the scroll to the bottom after a
   * successful click throws (`scrollThrows`).
   */
  method TryClickLoadMore(searchThrows: bool, matches: string -> seq<Element>, clickSucceeds: nat -> bool,
                          scrollThrows: bool)
    returns (clicked: bool, clicks: nat)
    ensures clicks <= MaxClickAttempts
    ensures clicked <==>
      !searchThrows
      && (exists i | 0 <= i < |LoadMoreSelectors| :: HasClickable(matches(LoadMoreSelectors[i])))
      && (exists k | 0 <= k < MaxClickAttempts :: clickSucceeds(k))
      && !scrollThrows
    ensures clicks > 0 ==> !searchThrows
  {
    if searchThrows {
      return false, 0;
    }
    var found := FindLoadMore(matches);
    if found.None? {
      return false, 0;
    }
    clicked, clicks := ClickWithRetry(clickSucceeds);
    if clicked && scrollThrows {
      clicked := false;
    }
  }

  // ---------------------------------------------------------------------
  // Counting listing cards
  // ---------------------------------------------------------------------

  const CountSelectors: seq<string> := [
    "article.ma-AdCardV2",
    "article[class*=\"AdCard\"]",
    "article",
    ".ma-AdCardV2",
    "[class*=\"AdCard\"]",
    "[class*=\"listing-item\"]",
    "[class*=\"result-item\"]",
    ".ma-AdList > *"
  ]

  /** Shown on the page: it has an offset parent and is not `display: none`. */
  predicate Visible(e: Element) {
    e.hasOffsetParent && !e.displayNone
  }

  /** The length of `elements.filter(visible)`. */
  function VisibleCount(els: seq<Element>): (n: nat)
    ensures n <= |els|
    ensures n == 0 <==> forall j | 0 <= j < |els| :: !Visible(els[j])
  {
    if els == [] then 0
    else (if Visible(els[0]) then 1 else 0) + VisibleCount(els[1..])
  }

  /** What a selector contributes: its visible count, or 0 when the query throws. */
  function SelectorCount(query: Query, selector: string): nat {
    match query(selector)
    case Some(els) => VisibleCount(els)
    case None => 0
  }

  /**
   * `countVisibleElements`: the largest visible count over all selectors, a
   * selector whose query throws being skipped; 0 when the whole evaluation
   * throws (`evaluateThrows`).
   */
  method CountVisibleElements(evaluateThrows: bool, query: Query) returns (maxCount: nat)
    ensures evaluateThrows ==> maxCount == 0
    ensures !evaluateThrows ==> forall i | 0 <= i < |CountSelectors| :: SelectorCount(query, CountSelectors[i]) <= maxCount
    ensures maxCount == 0 || exists i | 0 <= i < |CountSelectors| :: SelectorCount(query, CountSelectors[i]) == maxCount
  {
    if evaluateThrows {
      return 0;
    }
    maxCount := 0;
    for i := 0 to |CountSelectors|
      invariant forall k | 0 <= k < i :: SelectorCount(query, CountSelectors[k]) <= maxCount
      invariant maxCount == 0 || exists k | 0 <= k < i :: SelectorCount(query, CountSelectors[k]) == maxCount
    {
      var q := query(CountSelectors[i]);
      if q.Some? {
        var visible := VisibleCount(q.value);
        if visible > maxCount {
          maxCount := visible;
        }
      }
    }
  }

  // ---------------------------------------------------------------------
  // The whole of exhaustiveScroll
  // ---------------------------------------------------------------------

  /**
   * `exhaustiveScroll`: count, scroll until the timer stops, count, try the
   * "load more" button, count again. The counts are only logged, and the
   * counting and clicking helpers catch their own errors, so the result is
   * `false` only when the scrolling script throws (`scrollThrows`). `None`
   * means the timer had not stopped within the ticks observed: the promise is
   * still pending.
   */
  method ExhaustiveScroll(scrollThrows: bool, ticks: seq<Metrics>, query: Query,
                          searchThrows: bool, matches: string -> seq<Element>, clickSucceeds: nat -> bool,
                          loadMoreScrollThrows: bool)
    returns (completed: Option<bool>)
    ensures completed == Some(false) <==> scrollThrows
    ensures completed == None <==> !scrollThrows && NoStopBefore(ticks, |ticks|)
  {
    var initialCount := CountVisibleElements(false, query);
    if scrollThrows {
      return Some(false);
    }
    var end, _ := ScrollToEnd(ticks);
    if end.StillScrolling? {
      return None;
    }
    var finalCount := CountVisibleElements(false, query);
    var _, _ := TryClickLoadMore(searchThrows, matches, clickSucceeds, loadMoreScrollThrows);
    var afterLoadMoreCount := CountVisibleElements(false, query);
    completed := Some(true);
  }
}
