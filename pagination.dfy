/**
 * Reading the results page's pagination: the total number of listings the
 * page announces, the highest page number it offers, whether a page is a
 * results page, whether a page number is the active one, and the navigation
 * to the next page by three successive methods.
 *
 * Every `page.evaluate` is an observation handed in as a parameter: the text
 * or the buttons the browser would report, with `None` (or a `threw` flag)
 * where the evaluation rejects.
 */
module Pagination {
  import opened Wrappers
  import opened JsText
  import opened CountText

  // ---------------------------------------------------------------------
  // The announced total
  // ---------------------------------------------------------------------

  /** The selectors tried in order for the element that announces the total. */
  const TotalSelectors: seq<string> := [
    "[data-botify-total-hits]",
    ".ma-ContentListingSummary-label",
    ".ma-ContentListingSummary span",
    "[class*=\"Summary\"] span:contains(\"anuncios\")"
  ]

  /**
   * The text content of the first element a selector matches: `Some("")` when
   * none matches, `None` when the evaluation rejects. A browser rejects the
   * last of `TotalSelectors`: `:contains` is not a CSS pseudo-class, so
   * `querySelector` throws a syntax error for it.
   */
  type SummaryQuery = string -> Option<string>

  /** How the selector loop ends. */
  datatype Stage = Threw | Counted(n: nat) | Unmatched

  /** A selector's text yields a count. */
  predicate CountsAt(query: SummaryQuery, k: nat)
    requires k < |TotalSelectors|
  {
    query(TotalSelectors[k]).Some? && query(TotalSelectors[k]).value != ""
    && ParseCount(query(TotalSelectors[k]).value).Some?
  }

  /**
   * The selector loop from selector `i` on: the first selector whose text
   * yields a count decides. A rejected evaluation ends it with `Threw`, unless
   * `skipRejected`, in which case that selector counts as matching nothing.
   */
  function SelectorStage(query: SummaryQuery, skipRejected: bool, i: nat): (st: Stage)
    requires i <= |TotalSelectors|
    decreases |TotalSelectors| - i
  {
    if i == |TotalSelectors| then Unmatched
    else match query(TotalSelectors[i])
      case None => if skipRejected then SelectorStage(query, skipRejected, i + 1) else Threw
      case Some(t) =>
        if t != "" && ParseCount(t).Some? then Counted(ParseCount(t).value)
        else SelectorStage(query, skipRejected, i + 1)
  }

  /**
   * A counted stage carries the count of a selector at or after `i` whose text
   * yields one, and only a loop that does not skip rejections can throw.
   */
  lemma {:induction false} SelectorStageSound(query: SummaryQuery, skipRejected: bool, i: nat)
    requires i <= |TotalSelectors|
    ensures var st := SelectorStage(query, skipRejected, i);
      (st.Counted? ==> exists k | i <= k < |TotalSelectors| ::
        CountsAt(query, k) && ParseCount(query(TotalSelectors[k]).value) == Some(st.n))
      && (st.Threw? ==> !skipRejected)
    decreases |TotalSelectors| - i
  {
    if i < |TotalSelectors| {
      var st := SelectorStage(query, skipRejected, i);
      if st == SelectorStage(query, skipRejected, i + 1) {
        SelectorStageSound(query, skipRejected, i + 1);
      } else if st.Counted? {
        assert CountsAt(query, i);
      }
    }
  }

  /** The page-wide search: the first text (in document order) that `/\d+\s*anuncios/i` matches. */
  function FirstMention(texts: seq<string>): (r: Option<string>)
    ensures r.Some? ==> r.value in texts && MentionsAnuncios(r.value)
    ensures r.None? ==> forall i | 0 <= i < |texts| :: !MentionsAnuncios(texts[i])
  {
    if texts == [] then None
    else if MentionsAnuncios(texts[0]) then Some(texts[0])
    else FirstMention(texts[1..])
  }

  /**
   * What the page-wide search and the final test make of the page: the
   * count read from the first mentioning text when it is positive, -1
   * otherwise. `None` stands for a rejected evaluation.
   */
  function PageCount(elements: Option<seq<string>>): (n: int)
    ensures n == -1 || n > 0
  {
    if elements.None? then -1
    else match FirstMention(elements.value)
      case None => -1
      case Some(t) => if ParseCount(t).Some? && ParseCount(t).value > 0 then ParseCount(t).value else -1
  }

  /** The function's value once the selector loop has ended as `st`. */
  function TotalAfter(st: Stage, elements: Option<seq<string>>): (n: int)
    ensures n == -1 || n > 0
    ensures st.Threw? ==> n == -1
    ensures st.Counted? && st.n > 0 ==> n == st.n
  {
    match st
    case Threw => -1
    case Counted(c) => if c > 0 then c else PageCount(elements)
    case Unmatched => PageCount(elements)
  }

  /** The selector loop: stops at the first count, or at the first rejected evaluation unless `skipRejected`. */
  method ScanSelectors(query: SummaryQuery, skipRejected: bool) returns (st: Stage)
    ensures st == SelectorStage(query, skipRejected, 0)
  {
    for i := 0 to |TotalSelectors|
        invariant SelectorStage(query, skipRejected, 0) == SelectorStage(query, skipRejected, i)
    {
      var text := query(TotalSelectors[i]);
      if text.None? {
        if !skipRejected {
          return Threw;
        }
      } else if text.value != "" {
        var count := ParseCount(text.value);
        if count.Some? {
          return Counted(count.value);
        }
      }
    }
    return Unmatched;
  }

  /** The page-wide evaluation: the first element text that mentions a count, "" when none does. */
  method SearchPage(texts: seq<string>) returns (text: string)
    ensures text == FirstMention(texts).GetOr("")
  {
    for i := 0 to |texts|
      invariant FirstMention(texts) == FirstMention(texts[i..])
    {
      assert texts[i..][1..] == texts[i + 1..];
      if texts[i] != "" && MentionsAnuncios(texts[i]) {
        return texts[i];
      }
    }
    return "";
  }

  /** The page-wide search once the selectors have given no positive count, then the final test. */
  method FinishTotal(st: Stage, elements: Option<seq<string>>) returns (total: int)
    requires !st.Threw?
    ensures total == TotalAfter(st, elements)
  {
    var totalNumber: int := if st.Counted? then st.n else -1;
    if totalNumber <= 0 {
      if elements.None? {
        return -1;
      }
      var text := SearchPage(elements.value);
      if text != "" {
        var count := ParseCount(text);
        if count.Some? {
          totalNumber := count.value;
        }
      }
    }
    total := if totalNumber > 0 then totalNumber else -1;
  }

  /**
   * `getTotalListings` as written: a positive count or -1, never 0. A
   * rejected evaluation of any selector, the last one included, returns -1
   * through the catch.
   */
  method GetTotalListings(query: SummaryQuery, elements: Option<seq<string>>) returns (total: int)
    ensures total == -1 || total > 0
    ensures total == TotalAfter(SelectorStage(query, false, 0), elements)
  {
    var st := ScanSelectors(query, false);
    if st.Threw? {
      return -1;
    }
    total := FinishTotal(st, elements);
  }

  /**
   * The evidently intended reading: a selector the browser rejects counts as
   * matching nothing, so the page-wide search is reached whenever no selector
   * yields a positive count.
   */
  method GetTotalListingsSkippingRejected(query: SummaryQuery, elements: Option<seq<string>>) returns (total: int)
    ensures total == -1 || total > 0
    ensures total == TotalAfter(SelectorStage(query, true, 0), elements)
  {
    var st := ScanSelectors(query, true);
    total := FinishTotal(st, elements);
  }

  /** A selector that yields a positive count decides the total, whatever the rest of the page says. */
  lemma SelectorCountDecides(query: SummaryQuery, skipRejected: bool, elements: Option<seq<string>>, k: nat)
    requires k < |TotalSelectors| && CountsAt(query, k)
    requires forall j | 0 <= j < k :: query(TotalSelectors[j]).Some? && !CountsAt(query, j)
    requires ParseCount(query(TotalSelectors[k]).value).value > 0
    ensures TotalAfter(SelectorStage(query, skipRejected, 0), elements)
      == ParseCount(query(TotalSelectors[k]).value).value
  {
    StageSkips(query, skipRejected, 0, k);
  }

  /** Selectors that answer without a count are passed over. */
  lemma {:induction false} StageSkips(query: SummaryQuery, skipRejected: bool, i: nat, k: nat)
    requires i <= k <= |TotalSelectors|
    requires forall j | i <= j < k :: query(TotalSelectors[j]).Some? && !CountsAt(query, j)
    ensures SelectorStage(query, skipRejected, i) == SelectorStage(query, skipRejected, k)
    decreases k - i
  {
    if i < k {
      StageSkips(query, skipRejected, i + 1, k);
    }
  }

  /**
   * As written, once the three valid selectors yield no count the rejected
   * fourth one ends the function with -1: the page-wide search never runs,
   * whatever the page says.
   */
  lemma RejectedSelectorHidesPageText(query: SummaryQuery, elements: Option<seq<string>>)
    requires forall j | 0 <= j < 3 :: query(TotalSelectors[j]).Some? && !CountsAt(query, j)
    requires query(TotalSelectors[3]) == None
    ensures TotalAfter(SelectorStage(query, false, 0), elements) == -1
  {
    StageSkips(query, false, 0, 3);
  }

  /**
   * With rejected selectors passed over, a page whose selectors yield no
   * count still gives the count of its first mentioning text.
   */
  lemma SkippingRejectedReadsPageText(query: SummaryQuery, texts: seq<string>, n: nat)
    requires forall j | 0 <= j < 4 :: !CountsAt(query, j)
    requires FirstMention(texts).Some? && ParseCount(FirstMention(texts).value) == Some(n) && n > 0
    ensures TotalAfter(SelectorStage(query, true, 0), Some(texts)) == n
  {
    assert !CountsAt(query, 3) && SelectorStage(query, true, 3) == Unmatched;
    assert !CountsAt(query, 2) && SelectorStage(query, true, 2) == Unmatched;
    assert !CountsAt(query, 1) && SelectorStage(query, true, 1) == Unmatched;
    assert !CountsAt(query, 0) && SelectorStage(query, true, 0) == Unmatched;
  }

  /** "<n> anuncios" is a text the page-wide search accepts. */
  lemma NumeralMentions(n: nat)
    ensures MentionsAnuncios(DecimalString(n) + " anuncios")
  {
    DecimalStringDigits(n);
    DigitsMention(DecimalString(n));
  }

  /**
   * The discrepancy on a concrete page: the valid selectors find nothing and
   * the page reads "1234 anuncios". As written the total is -1; with the
   * rejected selector passed over it is 1234.
   */
  lemma AnnouncedTotalLost()
    ensures var query: SummaryQuery := sel => if sel == TotalSelectors[3] then None else Some("");
      var page := Some([DecimalString(1234) + " anuncios"]);
      TotalAfter(SelectorStage(query, false, 0), page) == -1
      && TotalAfter(SelectorStage(query, true, 0), page) == 1234
  {
    var query: SummaryQuery := sel => if sel == TotalSelectors[3] then None else Some("");
    var text := DecimalString(1234) + " anuncios";
    assert TotalSelectors[0] != TotalSelectors[3] && TotalSelectors[1] != TotalSelectors[3];
    assert TotalSelectors[2] != TotalSelectors[3];
    forall j | 0 <= j < 3 ensures query(TotalSelectors[j]).Some? && !CountsAt(query, j) {
      assert query(TotalSelectors[j]) == Some("");
    }
    RejectedSelectorHidesPageText(query, Some([text]));
    NumeralMentions(1234);
    ParseCountOfNumeral(1234);
    assert FirstMention([text]) == Some(text);
    assert query(TotalSelectors[3]) == None;
    SkippingRejectedReadsPageText(query, [text], 1234);
  }

  // ---------------------------------------------------------------------
  // The highest page number
  // ---------------------------------------------------------------------

  /** Assumed when the paginator gives no number, and after any error. */
  const DefaultMaxPages: int := 10

  /** `parseInt(button.textContent.trim(), 10)`, `None` for NaN. */
  function ButtonNumber(text: string): Option<int> {
    ParseInt(Trim(text))
  }

  /**
   * The direct method's number: the text of the button after the "..."
   * divider (`None` when there is no divider, no element after it or no
   * button in it), read as a page number; only a non-zero number is taken.
   */
  function DividerPage(divider: Option<string>): Option<int> {
    if divider.Some? && ButtonNumber(divider.value).Some? && ButtonNumber(divider.value).value != 0
    then ButtonNumber(divider.value) else None
  }

  /** The greatest of a non-empty sequence of numbers (`Math.max(...xs)`). */
  function Largest(xs: seq<int>): (m: int)
    requires xs != []
    ensures m in xs
    ensures forall i | 0 <= i < |xs| :: xs[i] <= m
  {
    if |xs| == 1 then xs[0]
    else
      var rest := Largest(xs[1..]);
      assert forall i | 1 <= i < |xs| :: xs[i] == xs[1..][i - 1];
      if xs[0] >= rest then xs[0] else rest
  }

  /**
   * The page count `getMaxPages` settles on: 10 when the evaluation throws,
   * else the number after the divider, else the largest button number, else 10.
   */
  predicate IsMaxPages(threw: bool, divider: Option<string>, buttonTexts: seq<string>, maxPages: int) {
    if threw then maxPages == DefaultMaxPages
    else if DividerPage(divider).Some? then maxPages == DividerPage(divider).value
    else if PageNumbers(buttonTexts, ButtonNumber) != [] then
      maxPages in PageNumbers(buttonTexts, ButtonNumber)
      && forall x | x in PageNumbers(buttonTexts, ButtonNumber) :: x <= maxPages
    else maxPages == DefaultMaxPages
  }

  /** The page count is determined: two values that both qualify are equal. */
  lemma IsMaxPagesUnique(threw: bool, divider: Option<string>, buttonTexts: seq<string>, m1: int, m2: int)
    requires IsMaxPages(threw, divider, buttonTexts, m1) && IsMaxPages(threw, divider, buttonTexts, m2)
    ensures m1 == m2
  {
  }

  /**
   * `getMaxPages`: the number after the divider when it is a non-zero
   * number, otherwise the greatest number any button shows, otherwise 10; 10
   * as well when an evaluation rejects. Nothing keeps the result positive: a
   * button reading "-3" after the divider gives -3.
   */
  method GetMaxPages(threw: bool, divider: Option<string>, buttonTexts: seq<string>) returns (maxPages: int)
    ensures IsMaxPages(threw, divider, buttonTexts, maxPages)
    ensures threw ==> maxPages == DefaultMaxPages
    ensures !threw && DividerPage(divider).Some? ==> maxPages == DividerPage(divider).value
    ensures !threw && DividerPage(divider).None? && PageNumbers(buttonTexts, ButtonNumber) != []
      ==> maxPages in PageNumbers(buttonTexts, ButtonNumber)
          && forall x | x in PageNumbers(buttonTexts, ButtonNumber) :: x <= maxPages
    ensures !threw && DividerPage(divider).None? && PageNumbers(buttonTexts, ButtonNumber) == []
      ==> maxPages == DefaultMaxPages
  {
    if threw {
      return DefaultMaxPages;
    }
    var direct := DividerPage(divider);
    if direct.Some? {
      return direct.value;
    }
    var numbers := CollectPageNumbers(buttonTexts, ButtonNumber);
    if |numbers| > 0 {
      maxPages := Largest(numbers);
    } else {
      maxPages := DefaultMaxPages;
    }
  }

  /** The numbers the texts read as under `read`, in order; texts that read as NaN are dropped. */
  function PageNumbers(texts: seq<string>, read: string -> Option<int>): (xs: seq<int>)
    ensures |xs| <= |texts|
  {
    if texts == [] then []
    else
      var rest := PageNumbers(texts[..|texts| - 1], read);
      match read(texts[|texts| - 1])
      case None => rest
      case Some(v) => rest + [v]
  }

  /** A number is collected exactly when some text reads as it. */
  lemma {:induction false} PageNumbersRead(texts: seq<string>, read: string -> Option<int>)
    ensures forall x :: x in PageNumbers(texts, read) <==> exists k | 0 <= k < |texts| :: read(texts[k]) == Some(x)
  {
    if texts != [] {
      var front := texts[..|texts| - 1];
      PageNumbersRead(front, read);
      assert forall k | 0 <= k < |front| :: front[k] == texts[k];
    }
  }

  /**
   * The all-buttons evaluation: every button text that reads as a number, in
   * order; `read` is how a text is read, `ButtonNumber` in `getMaxPages`.
   */
  method CollectPageNumbers(buttonTexts: seq<string>, read: string -> Option<int>) returns (numbers: seq<int>)
    ensures numbers == PageNumbers(buttonTexts, read)
  {
    numbers := [];
    for i := 0 to |buttonTexts|
      invariant numbers == PageNumbers(buttonTexts[..i], read)
    {
      var text := buttonTexts[i];
      var pageNum := read(text);
      assert PageNumbers(buttonTexts[..i + 1], read)
        == if pageNum.Some? then numbers + [pageNum.value] else numbers by {
        assert buttonTexts[..i + 1][..i] == buttonTexts[..i];
      }
      if pageNum.Some? {
        numbers := numbers + [pageNum.value];
      }
    }
    assert buttonTexts[..|buttonTexts|] == buttonTexts;
  }

  // ---------------------------------------------------------------------
  // Results page and active page number
  // ---------------------------------------------------------------------

  /**
   * What `isResultPage` looks at: how many listing elements the page has,
   * and whether it has a summary and a paginator.
   */
  datatype ResultProbe = ResultProbe(listings: nat, hasSummary: bool, hasPagination: bool)

  /**
   * A results page has listings, or both a summary and a paginator. `None`
   * (a rejected evaluation) reads as not a results page.
   */
  function IsResultPage(probe: Option<ResultProbe>): (r: bool)
    ensures r ==> probe.Some?
    ensures probe.Some? && probe.value.listings > 0 ==> r
    ensures probe.Some? && probe.value.listings == 0 ==> (r <==> probe.value.hasSummary && probe.value.hasPagination)
  {
    match probe
    case None => false
    case Some(p) => p.listings > 0 || (p.hasSummary && p.hasPagination)
  }

  /** A `<button>` as the navigation code reads it. */
  datatype Button = Button(text: string, disabled: bool, solidClass: bool, activeClass: bool, ariaCurrent: Option<string>)

  /** The button's trimmed text is `caption`. */
  predicate Labelled(b: Button, caption: string) {
    Trim(b.text) == caption
  }

  /** The button is styled or marked as the current page. */
  predicate MarkedActive(b: Button) {
    b.solidClass || b.activeClass || b.ariaCurrent == Some("page")
  }

  /** The first button labelled `caption` is marked active. */
  predicate ActiveLabel(buttons: seq<Button>, caption: string)
    decreases |buttons|
  {
    buttons != [] &&
    if Labelled(buttons[0], caption) then MarkedActive(buttons[0]) else ActiveLabel(buttons[1..], caption)
  }

  /**
   * The active test read over indexes: some button labelled `caption` is
   * marked active and no earlier button carries that label.
   */
  lemma {:induction false} ActiveLabelAt(buttons: seq<Button>, caption: string)
    ensures ActiveLabel(buttons, caption) <==>
      exists i | 0 <= i < |buttons| :: Labelled(buttons[i], caption) && MarkedActive(buttons[i])
        && forall k | 0 <= k < i :: !Labelled(buttons[k], caption)
  {
    if ActiveLabel(buttons, caption) {
      var i := ActiveLabelWitness(buttons, caption);
    }
    forall i | 0 <= i < |buttons| && Labelled(buttons[i], caption) && MarkedActive(buttons[i])
        && forall k | 0 <= k < i :: !Labelled(buttons[k], caption)
      ensures ActiveLabel(buttons, caption)
    {
      WitnessActiveLabel(buttons, caption, i);
    }
  }

  /** An active label is found at the first button carrying the caption. */
  lemma {:induction false} ActiveLabelWitness(buttons: seq<Button>, caption: string) returns (i: nat)
    requires ActiveLabel(buttons, caption)
    ensures i < |buttons| && Labelled(buttons[i], caption) && MarkedActive(buttons[i])
    ensures forall k | 0 <= k < i :: !Labelled(buttons[k], caption)
    decreases |buttons|
  {
    if Labelled(buttons[0], caption) {
      i := 0;
    } else {
      var j := ActiveLabelWitness(buttons[1..], caption);
      ShiftedNotLabelled(buttons, caption, j);
      i := j + 1;
    }
  }

  /** The first button carrying the caption, when marked active, makes the label active. */
  lemma {:induction false} WitnessActiveLabel(buttons: seq<Button>, caption: string, i: nat)
    requires i < |buttons| && Labelled(buttons[i], caption) && MarkedActive(buttons[i])
    requires forall k | 0 <= k < i :: !Labelled(buttons[k], caption)
    ensures ActiveLabel(buttons, caption)
    decreases i
  {
    if i > 0 {
      assert !Labelled(buttons[0], caption);
      var rest := buttons[1..];
      assert rest[i - 1] == buttons[i];
      forall k | 0 <= k < i - 1 ensures !Labelled(rest[k], caption) {
        assert rest[k] == buttons[k + 1];
      }
      WitnessActiveLabel(rest, caption, i - 1);
    }
  }

  /** Labels absent from the first `j` buttons after the first are absent from the first `j + 1` when the first lacks it too. */
  lemma ShiftedNotLabelled(buttons: seq<Button>, caption: string, j: nat)
    requires j < |buttons| - 1 && !Labelled(buttons[0], caption)
    requires forall k | 0 <= k < j :: !Labelled(buttons[1..][k], caption)
    ensures forall k | 0 <= k < j + 1 :: !Labelled(buttons[k], caption)
  {
    forall k | 0 < k < j + 1 ensures !Labelled(buttons[k], caption) {
      assert buttons[k] == buttons[1..][k - 1];
    }
  }

  /**
   * `isPageNumberActive`: only the first button showing the number decides;
   * a later active button with the same number does not count.
   */
  method IsPageNumberActive(buttons: seq<Button>, pageNumber: nat) returns (active: bool)
    ensures active <==> ActiveLabel(buttons, DecimalString(pageNumber))
  {
    var caption := DecimalString(pageNumber);
    assert buttons[0..] == buttons;
    for i := 0 to |buttons|
      invariant ActiveLabel(buttons[i..], caption) == ActiveLabel(buttons, caption)
    {
      var b := buttons[i];
      assert buttons[i..][0] == b && buttons[i..][1..] == buttons[i + 1..];
      if Labelled(b, caption) {
        return MarkedActive(b);
      }
    }
    return false;
  }

  /** Some enabled button is labelled `caption`. */
  predicate EnabledLabel(buttons: seq<Button>, caption: string)
    decreases |buttons|
  {
    buttons != [] &&
    ((Labelled(buttons[0], caption) && !buttons[0].disabled) || EnabledLabel(buttons[1..], caption))
  }

  /** The enabled test read over indexes. */
  lemma {:induction false} EnabledLabelAt(buttons: seq<Button>, caption: string)
    ensures EnabledLabel(buttons, caption) <==>
      exists i | 0 <= i < |buttons| :: Labelled(buttons[i], caption) && !buttons[i].disabled
    decreases |buttons|
  {
    if buttons != [] {
      var rest := buttons[1..];
      EnabledLabelAt(rest, caption);
      if EnabledLabel(rest, caption) {
        var j :| 0 <= j < |rest| && Labelled(rest[j], caption) && !rest[j].disabled;
        assert buttons[j + 1] == rest[j];
      }
      forall i | 0 < i < |buttons| && Labelled(buttons[i], caption) && !buttons[i].disabled
        ensures EnabledLabel(rest, caption)
      {
        assert rest[i - 1] == buttons[i];
      }
    }
  }

  /** The search for an enabled button with the given caption that methods 1 and 2 run before clicking. */
  method HasEnabledButton(buttons: seq<Button>, caption: string) returns (found: bool)
    ensures found <==> EnabledLabel(buttons, caption)
  {
    assert buttons[0..] == buttons;
    for i := 0 to |buttons|
      invariant EnabledLabel(buttons[i..], caption) == EnabledLabel(buttons, caption)
    {
      var b := buttons[i];
      assert buttons[i..][0] == b && buttons[i..][1..] == buttons[i + 1..];
      if Labelled(b, caption) && !b.disabled {
        return true;
      }
    }
    return false;
  }

  /** The disabled state does not enter the active check: a later enabled twin never overrides the first. */
  lemma {:induction false} FirstLabelDecides(buttons: seq<Button>, caption: string, b: Button)
    requires ActiveLabel(buttons, caption)
    ensures ActiveLabel(buttons + [b], caption)
    decreases |buttons|
  {
    assert (buttons + [b])[0] == buttons[0];
    if !Labelled(buttons[0], caption) {
      FirstLabelDecides(buttons[1..], caption, b);
      SnocTail(buttons, b);
    }
  }

  /** Dropping the first button commutes with appending one. */
  lemma SnocTail(buttons: seq<Button>, b: Button)
    requires buttons != []
    ensures (buttons + [b])[1..] == buttons[1..] + [b]
  {
  }

  // ---------------------------------------------------------------------
  // The direct URL of the next page
  // ---------------------------------------------------------------------

  /** The query parameter that numbers the results pages. */
  const PageKey: string := "pagina="

  /** `/pagina=\d+/` matches at `p`. */
  predicate PageParamAt(s: string, p: nat) {
    OccursAt(s, PageKey, p) && p + 7 < |s| && IsDigit(s[p + 7])
  }

  /** The leftmost match of `/pagina=\d+/` at or after `p`. */
  function FirstPageParam(s: string, p: nat): (r: Option<nat>)
    requires p <= |s|
    ensures r.Some? ==> p <= r.value < |s| && PageParamAt(s, r.value)
    ensures r.Some? ==> forall q | p <= q < r.value :: !PageParamAt(s, q)
    ensures r.None? ==> forall q | p <= q < |s| :: !PageParamAt(s, q)
    decreases |s| - p
  {
    if p == |s| then None
    else if PageParamAt(s, p) then Some(p)
    else FirstPageParam(s, p + 1)
  }

  /** The page number the URL's first `pagina=<digits>` names. */
  function PageParam(s: string): Option<nat> {
    match FirstPageParam(s, 0)
    case None => None
    case Some(q) =>
      var e := DigitRunEnd(s, q + 7);
      Some(DigitsValue(s[q + 7..e]))
  }

  /**
   * Method 3's target: with a `pagina=` already in the URL, the first
   * `pagina=<digits>` gets the new number (and the URL is left alone when no
   * digit follows any `pagina=`); otherwise the parameter is appended with
   * '&' or '?' depending on whether the URL has a query.
   */
  function NextPageUrl(url: string, n: nat): (r: string)
    ensures !Contains(url, PageKey) ==> StartsWith(r, url) && |r| > |url|
    ensures Contains(url, PageKey) && FirstPageParam(url, 0).None? ==> r == url
  {
    var num := DecimalString(n);
    if Contains(url, PageKey) then
      match FirstPageParam(url, 0)
      case None => url
      case Some(q) => url[..q + 7] + num + url[DigitRunEnd(url, q + 7)..]
    else
      assert FirstPageParam(url, 0).None? by {
        forall q | 0 <= q < |url| ensures !PageParamAt(url, q) {
          if q + 7 <= |url| {
            assert !OccursAt(url, PageKey, q);
          }
        }
      }
      url + (if '?' in url then "&" else "?") + PageKey + num
  }

  /** A match at `q` with none before it is the first match. */
  lemma {:induction false} FirstPageParamIs(s: string, p: nat, q: nat)
    requires p <= q < |s| && PageParamAt(s, q)
    requires forall k | p <= k < q :: !PageParamAt(s, k)
    ensures FirstPageParam(s, p) == Some(q)
    decreases q - p
  {
    if p < q {
      FirstPageParamIs(s, p + 1, q);
    }
  }

  /** Replacing the digits of the first `pagina=` keeps it the first, now followed by exactly the new numeral. */
  lemma ReplacedParam(url: string, n: nat, q: nat)
    requires FirstPageParam(url, 0) == Some(q)
    ensures var num := DecimalString(n);
      var r := url[..q + 7] + num + url[DigitRunEnd(url, q + 7)..];
      FirstPageParam(r, 0) == Some(q) && DigitRunEnd(r, q + 7) == q + 7 + |num| && r[q + 7..q + 7 + |num|] == num
      && r[..q] == url[..q]
  {
    DecimalStringDigits(n);
    var num := DecimalString(n);
    var e := DigitRunEnd(url, q + 7);
    var r := url[..q + 7] + num + url[e..];
    SplicedKeepsFirstParam(url, q, num, e);
    SplicedDigitRun(url, q + 7, num, e);
    assert r[..q] == url[..q] by {
      Spliced(url, q + 7, num, e);
    }
  }

  /** Splicing digits in after the first `pagina=` keeps it the first. */
  lemma SplicedKeepsFirstParam(url: string, q: nat, num: string, e: nat)
    requires FirstPageParam(url, 0) == Some(q)
    requires q + 7 <= e <= |url| && |num| > 0 && IsDigit(num[0])
    ensures FirstPageParam(url[..q + 7] + num + url[e..], 0) == Some(q)
  {
    var r := url[..q + 7] + num + url[e..];
    Spliced(url, q + 7, num, e);
    forall p | 0 <= p < q ensures !PageParamAt(r, p) {
      PageParamAtAgrees(r, url, p);
    }
    assert PageParamAt(r, q) by {
      assert r[q..q + 7] == url[q..q + 7];
      assert r[q + 7] == num[0];
    }
    FirstPageParamIs(r, 0, q);
  }

  /** Digits spliced in before a non-digit (or the end) make up the whole digit run from `k`. */
  lemma SplicedDigitRun(url: string, k: nat, num: string, e: nat)
    requires k <= e <= |url| && AllDigits(num)
    requires e == |url| || !IsDigit(url[e])
    ensures var r := url[..k] + num + url[e..];
      DigitRunEnd(r, k) == k + |num| && r[k..k + |num|] == num
  {
    var r := url[..k] + num + url[e..];
    Spliced(url, k, num, e);
    forall i | k <= i < k + |num| ensures IsDigit(r[i]) {
      var j := i - k;
      assert r[k + j] == num[j];
    }
    DigitRunEndAt(r, k, k + |num|);
    assert r[k..k + |num|] == num;
  }

  /** The pieces of `url[..k] + num + url[e..]`, index by index. */
  lemma Spliced(url: string, k: nat, num: string, e: nat)
    requires k <= e <= |url|
    ensures var r := url[..k] + num + url[e..];
      && |r| == k + |num| + (|url| - e)
      && (forall i | 0 <= i < k :: r[i] == url[i])
      && (forall i | 0 <= i < |num| :: r[k + i] == num[i])
      && (e < |url| ==> r[k + |num|] == url[e])
  {
  }

  /** Whether `pagina=<digit>` starts at `p` depends only on the eight characters from `p`. */
  lemma PageParamAtAgrees(a: string, b: string, p: nat)
    requires p + 8 <= |a| && p + 8 <= |b|
    requires forall i | p <= i < p + 8 :: a[i] == b[i]
    ensures PageParamAt(a, p) <==> PageParamAt(b, p)
  {
    assert a[p..p + 7] == b[p..p + 7];
  }

  /** Appending to a URL without `pagina=` makes the appended parameter its first. */
  lemma AppendedParam(url: string, n: nat)
    requires !Contains(url, PageKey)
    ensures var num := DecimalString(n);
      var r := url + (if '?' in url then "&" else "?") + PageKey + num;
      FirstPageParam(r, 0) == Some(|url| + 1) && DigitRunEnd(r, |url| + 8) == |r| && r[|url| + 8..] == num
  {
    DecimalStringDigits(n);
    var num := DecimalString(n);
    var c := if '?' in url then '&' else '?';
    var r := url + [c] + (PageKey + num);
    assert url + (if '?' in url then "&" else "?") + PageKey + num == r;
    assert c !in PageKey;
    NoParamUpToSeparator(url, c, PageKey + num);
    AppendedParamAt(url, c, num);
    FirstPageParamIs(r, 0, |url| + 1);
  }

  /** No `pagina=` starts before or at a separator placed after a URL that has none. */
  lemma NoParamUpToSeparator(url: string, c: char, tail: string)
    requires !Contains(url, PageKey) && c !in PageKey
    ensures forall p | 0 <= p <= |url| :: !PageParamAt(url + [c] + tail, p)
  {
    var r := url + [c] + tail;
    forall p | 0 <= p <= |url| ensures !PageParamAt(r, p) {
      if p + 7 <= |url| {
        assert r[p..p + 7] == url[p..p + 7];
        assert !OccursAt(url, PageKey, p);
      } else if p + 7 <= |r| {
        assert r[p..p + 7][|url| - p] == c;
      }
    }
  }

  /** The appended `pagina=<num>` is a page parameter whose digits run to the end. */
  lemma AppendedParamAt(url: string, c: char, num: string)
    requires AllDigits(num)
    ensures var r := url + [c] + (PageKey + num);
      PageParamAt(r, |url| + 1) && DigitRunEnd(r, |url| + 8) == |r| && r[|url| + 8..] == num
  {
    var r := url + [c] + (PageKey + num);
    assert r[|url| + 1..] == PageKey + num;
    assert r[|url| + 1..|url| + 8] == PageKey;
    assert r[|url| + 8..] == num;
    assert r[|url| + 8] == num[0];
    forall i | |url| + 8 <= i < |r| ensures IsDigit(r[i]) {
      assert r[i] == num[i - (|url| + 8)];
    }
    DigitRunEndAt(r, |url| + 8, |r|);
  }

  /**
   * Whenever the URL can be rewritten, the rewritten URL names page `n`: its
   * first page parameter reads `n`, and it passes the `includes` test of
   * methods 1 and 2.
   */
  lemma NextPageUrlNamesPage(url: string, n: nat)
    requires !Contains(url, PageKey) || FirstPageParam(url, 0).Some?
    ensures PageParam(NextPageUrl(url, n)) == Some(n)
    ensures Contains(NextPageUrl(url, n), PageKey + DecimalString(n))
  {
    if Contains(url, PageKey) {
      var q := FirstPageParam(url, 0).value;
      ReplacedParam(url, n, q);
      NamesPageAt(NextPageUrl(url, n), n, q);
    } else {
      AppendedParam(url, n);
      NamesPageAt(NextPageUrl(url, n), n, |url| + 1);
    }
  }

  /** A first page parameter followed by exactly the numeral of `n` names page `n`. */
  lemma NamesPageAt(r: string, n: nat, q: nat)
    requires FirstPageParam(r, 0) == Some(q)
    requires DigitRunEnd(r, q + 7) == q + 7 + |DecimalString(n)|
    requires r[q + 7..q + 7 + |DecimalString(n)|] == DecimalString(n)
    ensures PageParam(r) == Some(n)
    ensures Contains(r, PageKey + DecimalString(n))
  {
    DecimalStringDigits(n);
    ParamReads(r, q, DecimalString(n));
    ParamSpells(r, q, DecimalString(n));
  }

  /** The first page parameter reads as the value of the digits that follow it. */
  lemma ParamReads(r: string, q: nat, num: string)
    requires FirstPageParam(r, 0) == Some(q) && AllDigits(num)
    requires DigitRunEnd(r, q + 7) == q + 7 + |num| && r[q + 7..q + 7 + |num|] == num
    ensures PageParam(r) == Some(DigitsValue(num))
  {
  }

  /** `pagina=` at `q` followed by `num` spells `pagina=<num>` there. */
  lemma ParamSpells(r: string, q: nat, num: string)
    requires OccursAt(r, PageKey, q)
    requires q + 7 + |num| <= |r| && r[q + 7..q + 7 + |num|] == num
    ensures OccursAt(r, PageKey + num, q)
  {
    var e := q + 7 + |num|;
    assert r[q..e] == r[q..q + 7] + r[q + 7..e];
  }

  // ---------------------------------------------------------------------
  // Navigating to the next page
  // ---------------------------------------------------------------------

  /** The address and buttons of the page after a click. */
  datatype PageView = PageView(url: string, buttons: seq<Button>)

  /**
   * What `goToNextPage` observes: the buttons method 1 searches and the page
   * after its click, the buttons method 2 searches and the page after its
   * click, the address method 3 starts from and the probe of the page it
   * lands on. `threw` stands for an exception anywhere in the function (a
   * screenshot, an evaluation, the captcha check after a successful
   * navigation), which the catch turns into a failure; `screenshotRejects`
   * says that the screenshot the catch takes rejects as well.
   */
  datatype NavObservation = NavObservation(
    threw: bool,
    screenshotRejects: bool,
    numberButtons: seq<Button>,
    afterNumberClick: PageView,
    nextButtons: seq<Button>,
    afterNextClick: PageView,
    urlBeforeDirect: string,
    afterDirect: Option<ResultProbe>)

  /** `{success, currentPage}`. */
  datatype NavResult = NavResult(success: bool, currentPage: nat)

  /** The caption of the "next" button. */
  const NextCaption: string := ">"

  /** The test after a click: the URL names page `n`, or page `n`'s button is the active one. */
  predicate Reached(view: PageView, n: nat) {
    Contains(view.url, PageKey + DecimalString(n)) || ActiveLabel(view.buttons, DecimalString(n))
  }

  /** The URL test is a substring test: an address on page 23 passes the test for page 2. */
  lemma LaterPagePassesUrlTest()
    ensures Reached(PageView("/motor?pagina=23", []), 2)
  {
    assert DecimalString(2) == "2";
    assert OccursAt("/motor?pagina=23", PageKey + "2", 7);
  }

  /** Method 1 succeeds: an enabled button shows `n`, and the page it leads to passes the test. */
  predicate ByNumber(obs: NavObservation, n: nat) {
    EnabledLabel(obs.numberButtons, DecimalString(n)) && Reached(obs.afterNumberClick, n)
  }

  /** Method 2 succeeds: an enabled ">" button exists, and the page it leads to passes the test. */
  predicate ByNext(obs: NavObservation, n: nat) {
    EnabledLabel(obs.nextButtons, NextCaption) && Reached(obs.afterNextClick, n)
  }

  /** Method 3 succeeds: the page the direct URL leads to is a results page. */
  predicate ByUrl(obs: NavObservation) {
    IsResultPage(obs.afterDirect)
  }

  /** Navigation to page `n` succeeds: nothing throws and one of the three methods works. */
  predicate Advances(obs: NavObservation, n: nat) {
    !obs.threw && (ByNumber(obs, n) || ByNext(obs, n) || ByUrl(obs))
  }

  /** The catch's screenshot rejects, so `goToNextPage` rejects instead of reporting a failure. */
  predicate Rejects(obs: NavObservation) {
    obs.threw && obs.screenshotRejects
  }

  /**
   * `goToNextPage`: the three methods in order, the first that succeeds
   * advancing the page by one. `visited` is the address method 3 navigates to,
   * when it is reached; `rejected` says that the returned promise rejects.
   */
  method GoToNextPage(obs: NavObservation, currentPage: nat)
    returns (result: NavResult, visited: Option<string>, rejected: bool)
    ensures rejected <==> Rejects(obs)
    ensures rejected ==> !result.success
    ensures result.success ==> result.currentPage == currentPage + 1
    ensures !result.success ==> result.currentPage == currentPage
    ensures result.success <==> Advances(obs, currentPage + 1)
    ensures visited.Some? <==> !obs.threw && !ByNumber(obs, currentPage + 1) && !ByNext(obs, currentPage + 1)
    ensures visited.Some? ==> visited.value == NextPageUrl(obs.urlBeforeDirect, currentPage + 1)
  {
    if obs.threw {
      return NavResult(false, currentPage), None, obs.screenshotRejects;
    }
    var next := currentPage + 1;
    var caption := DecimalString(next);
    var success := NavResult(true, next);

    var hasNumberButton := HasEnabledButton(obs.numberButtons, caption);
    if hasNumberButton {
      if Contains(obs.afterNumberClick.url, PageKey + caption) {
        return success, None, false;
      }
      var active := IsPageNumberActive(obs.afterNumberClick.buttons, next);
      if active {
        return success, None, false;
      }
    }

    var hasNextButton := HasEnabledButton(obs.nextButtons, NextCaption);
    if hasNextButton {
      if Contains(obs.afterNextClick.url, PageKey + caption) {
        return success, None, false;
      }
      var active := IsPageNumberActive(obs.afterNextClick.buttons, next);
      if active {
        return success, None, false;
      }
    }

    visited := Some(NextPageUrl(obs.urlBeforeDirect, next));
    if IsResultPage(obs.afterDirect) {
      return success, visited, false;
    }
    result, rejected := NavResult(false, currentPage), false;
  }
}
