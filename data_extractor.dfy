/**
 * `extractData` and `extractTotalCount`: choosing the selector for listing
 * cards, and turning each card into a record — the first-match field lookup
 * with its price and location clean-up, the filtered `details`, and the url,
 * image url and id derivations. The page is an oracle: selector counts, the
 * `innerText` of the first element a selector matches inside a card, the
 * texts of a card's detail elements, its links, image and attributes.
 */
module DataExtractor {
  import opened Wrappers
  import opened JsText
  import opened CountText
  import opened Listing

  // ---------------------------------------------------------------------
  // The total count
  // ---------------------------------------------------------------------

  /**
   * `extractTotalCount`: the dot-free number in the summary element's
   * trimmed text, or -1 when there is no element (`summary == None`, also
   * when the script throws) or no match. Unlike the pagination reader, 0 is a
   * possible answer.
   */
  function ExtractTotalCount(summary: Option<string>): (n: int)
    ensures n >= -1
    ensures n >= 0 <==> summary.Some? && CountCapture(Trim(summary.value)).Some?
    ensures n >= 0 ==> n == CaptureValue(CountCapture(Trim(summary.value)).value)
  {
    match summary
    case None => -1
    case Some(text) =>
      match ParseCount(Trim(text))
      case None => -1
      case Some(v) => v
  }

  /** The count a summary written as "<n> anuncios" shows is read back as `n`, 0 included. */
  lemma TotalCountOfNumeral(n: nat)
    ensures ExtractTotalCount(Some(DecimalString(n) + " anuncios")) == n
  {
    DecimalStringDigits(n);
    var s := DecimalString(n) + " anuncios";
    assert s[0] == DecimalString(n)[0];
    assert !IsSpace(s[0]) && !IsSpace(s[|s| - 1]);
    assert TrimStart(s) == s;
    assert TrimEnd(s) == s;
    ParseCountOfNumeral(n);
  }

  // ---------------------------------------------------------------------
  // Choosing the card selector
  // ---------------------------------------------------------------------

  const PrimaryArticleSelector: string := "article.ma-AdCardV2"

  const FallbackSelectors: seq<string> := [
    "article[class*=\"AdCard\"]",
    "[class*=\"AdCard\"]:not(nav):not(header):not(footer)",
    ".list-item-card",
    "article",
    ".ma-AdList > *"
  ]

  /** Below this many primary matches the fallbacks are tried. */
  const ArticleThreshold: nat := 5

  /**
   * The selector rule: the primary selector unless it matches fewer than five
   * cards and some fallback matches more; then the first such fallback.
   */
  predicate SelectorChoice(count: string -> nat, selector: string, found: nat) {
    var primary := count(PrimaryArticleSelector);
    if primary >= ArticleThreshold || forall i | 0 <= i < |FallbackSelectors| :: count(FallbackSelectors[i]) <= primary then
      selector == PrimaryArticleSelector && found == primary
    else
      exists i | 0 <= i < |FallbackSelectors| ::
        selector == FallbackSelectors[i] && found == count(FallbackSelectors[i]) > primary
        && forall k | 0 <= k < i :: count(FallbackSelectors[k]) <= primary
  }

  /**
   * The selector choice of `extractData`: count the primary matches and, below
   * the threshold, switch to the first fallback that matches strictly more,
   * at most once. `count` gives `querySelectorAll(sel).length`.
   */
  method ChooseArticleSelector(count: string -> nat) returns (selector: string, found: nat)
    ensures SelectorChoice(count, selector, found)
    ensures found >= count(PrimaryArticleSelector)
    ensures found == count(selector)
  {
    selector := PrimaryArticleSelector;
    found := count(selector);
    if found < ArticleThreshold {
      var i := 0;
      while i < |FallbackSelectors|
        invariant 0 <= i <= |FallbackSelectors|
        invariant forall k | 0 <= k < i :: count(FallbackSelectors[k]) <= count(PrimaryArticleSelector)
        invariant selector == PrimaryArticleSelector && found == count(PrimaryArticleSelector)
      {
        var fbCount := count(FallbackSelectors[i]);
        if fbCount > found {
          selector, found := FallbackSelectors[i], fbCount;
          return;
        }
        i := i + 1;
      }
    }
  }

  // ---------------------------------------------------------------------
  // getText: first-match field lookup
  // ---------------------------------------------------------------------

  /** The `fieldName` argument, as far as it changes the clean-up. */
  datatype FieldKind = PriceField | LocationField | PlainField

  /** What the price clean-up keeps of the first line: trimmed, every '€' removed, trimmed again. */
  function PriceCore(raw: string): string {
    Trim(RemoveAll(BeforeFirst(Trim(raw), '\n'), '€'))
  }

  /** `!isNaN(core.replace(/\./g, ''))` on a non-empty core: the price reads as a number. */
  predicate NumericPrice(raw: string) {
    var core := PriceCore(raw);
    core != "" && CoercesToNumber(RemoveAll(core, '.'))
  }

  /**
   * The price branch of `getText` for an element with this `innerText`: a
   * numeric price in the form "<core> €", else the raw first line when the
   * text had a '€' at all, else `None` (try the next selector).
   */
  function PriceText(raw: string): (r: Option<string>)
    ensures NumericPrice(raw) ==> r == Some(PriceCore(raw) + " €")
    ensures !NumericPrice(raw) && '€' in raw ==> r == Some(BeforeFirst(Trim(raw), '\n'))
    ensures !NumericPrice(raw) && '€' !in raw ==> r.None?
  {
    var text := PriceCore(raw);
    if text != "" && CoercesToNumber(RemoveAll(text, '.')) then Some(text + " €")
    else if '€' in raw then Some(BeforeFirst(Trim(raw), '\n'))
    else None
  }

  /**
   * The location branch of `getText` on the trimmed text: when the first two
   * lines agree, the first one trimmed; otherwise the first line trimmed.
   */
  function LocationText(text: string): (r: string)
    ensures r == Trim(BeforeFirst(text, '\n'))
  {
    var first := BeforeFirst(text, '\n');
    if |first| < |text| && Trim(first) == Trim(BeforeFirst(text[|first| + 1..], '\n')) then Trim(first)
    else Trim(first)
  }

  /**
   * What `getText` does with the first element one selector matches (`None`
   * when nothing matches or the selector throws): `Some` is the value it
   * returns, `None` means it goes on to the next selector.
   */
  function FieldText(kind: FieldKind, inner: Option<string>): Option<string> {
    match inner
    case None => None
    case Some(t) =>
      if t == "" then None
      else match kind
        case PriceField => PriceText(t)
        case LocationField => Some(LocationText(Trim(t)))
        case PlainField => Some(Trim(t))
  }

  /**
   * The answer of the first selector in `sels` that `read` answers, "" when
   * none does.
   */
  function FirstAnswer(read: string -> Option<string>, sels: seq<string>): string
  {
    if sels == [] then ""
    else
      match read(sels[0])
      case Some(v) => v
      case None => FirstAnswer(read, sels[1..])
  }

  /** The answer is that of the first selector answered, "" when none is. */
  lemma {:induction false} FirstAnswerFirst(read: string -> Option<string>, sels: seq<string>)
    ensures (forall i | 0 <= i < |sels| :: read(sels[i]).None?) ==> FirstAnswer(read, sels) == ""
    ensures (exists i | 0 <= i < |sels| :: read(sels[i]).Some?) ==>
      exists i | 0 <= i < |sels| :: read(sels[i]) == Some(FirstAnswer(read, sels))
        && forall k | 0 <= k < i :: read(sels[k]).None?
  {
    if sels != [] && read(sels[0]).None? {
      var rest := sels[1..];
      FirstAnswerFirst(read, rest);
      assert forall i | 1 <= i < |sels| :: sels[i] == rest[i - 1];
      if exists i | 0 <= i < |sels| :: read(sels[i]).Some? {
        var i :| 0 <= i < |sels| && read(sels[i]).Some?;
        assert read(rest[i - 1]).Some?;
        var j :| 0 <= j < |rest| && read(rest[j]) == Some(FirstAnswer(read, rest))
          && forall k | 0 <= k < j :: read(rest[k]).None?;
        assert read(sels[j + 1]) == Some(FirstAnswer(read, sels));
      }
    }
  }

  /**
   * `getText(article, selectors, fieldName)`: the value the first selector
   * that yields one gives, or "" when none does. `find(sel)` is the
   * `innerText` of the first element `sel` matches in the card.
   */
  function GetText(kind: FieldKind, find: string -> Option<string>, sels: seq<string>): string
  {
    FirstAnswer(FieldReader(kind, find), sels)
  }

  /** What one selector yields for a field: its text, if the field accepts it. */
  function FieldReader(kind: FieldKind, find: string -> Option<string>): string -> Option<string> {
    sel => FieldText(kind, find(sel))
  }

  /** "" when no selector gives an accepted text; otherwise the first accepted text in selector order. */
  lemma GetTextFirst(kind: FieldKind, find: string -> Option<string>, sels: seq<string>)
    ensures (forall i | 0 <= i < |sels| :: FieldText(kind, find(sels[i])).None?) ==> GetText(kind, find, sels) == ""
    ensures (exists i | 0 <= i < |sels| :: FieldText(kind, find(sels[i])).Some?) ==>
      exists i | 0 <= i < |sels| :: FieldText(kind, find(sels[i])) == Some(GetText(kind, find, sels))
        && forall k | 0 <= k < i :: FieldText(kind, find(sels[k])).None?
  {
    FirstAnswerFirst(FieldReader(kind, find), sels);
  }

  /** The characters of a trimmed string all occur in the original. */
  lemma TrimChars(s: string)
    ensures forall x | x in Trim(s) :: x in s
  {
    var t := TrimStart(s);
    var r := TrimEnd(t);
    assert r == Trim(s);
    var k := |s| - |t|;
    assert r == s[k..k + |r|];
    forall x | x in r ensures x in s {
      var i :| 0 <= i < |r| && r[i] == x;
      assert s[k + i] == x;
    }
  }

  /** A string that starts and ends with something other than white space is its own trim. */
  lemma TrimOfTrimmed(s: string)
    requires s == [] || (!IsSpace(s[0]) && !IsSpace(s[|s| - 1]))
    ensures Trim(s) == s
  {
    if s != [] {
      assert TrimStart(s) == s;
      assert TrimEnd(s) == s;
    }
  }

  /** Trimming a trimmed string with one trailing space gives the string back. */
  lemma TrimTrailingSpace(c: string)
    requires c != [] && !IsSpace(c[0]) && !IsSpace(c[|c| - 1])
    ensures Trim(c + " ") == c
  {
    var s := c + " ";
    assert s[0] == c[0];
    assert TrimStart(s) == s;
    assert s[..|s| - 1] == c;
    assert TrimEnd(c) == c;
  }

  /** The core of a price is trimmed and has neither a line break nor a '€'. */
  lemma PriceCoreShape(raw: string)
    ensures var c := PriceCore(raw);
      '\n' !in c && '€' !in c && (c == [] || (!IsSpace(c[0]) && !IsSpace(c[|c| - 1])))
  {
    TrimChars(RemoveAll(BeforeFirst(Trim(raw), '\n'), '€'));
  }

  /** Re-reading "<core> €" gives the same core back. */
  lemma PriceCoreOfNormal(c: string)
    requires c != [] && '\n' !in c && '€' !in c && !IsSpace(c[0]) && !IsSpace(c[|c| - 1])
    ensures PriceCore(c + " €") == c
  {
    var p := c + " €";
    assert p[0] == c[0] && p[|p| - 1] == '€';
    TrimOfTrimmed(p);
    BeforeFirstAbsent(p, '\n');
    RemoveAllConcat(c, " €", '€');
    RemoveAbsent(c, '€');
    assert RemoveAll(" €", '€') == " ";
    TrimTrailingSpace(c);
  }

  /** A numeric price, once cleaned up, cleans up to itself: the normal form is stable. */
  lemma PriceStable(raw: string)
    requires NumericPrice(raw)
    ensures PriceText(PriceText(raw).value) == PriceText(raw)
  {
    var c := PriceCore(raw);
    PriceCoreShape(raw);
    PriceCoreOfNormal(c);
  }

  /** Splitting on a character that does not occur gives the whole string. */
  lemma {:induction false} BeforeFirstAbsent(s: string, c: char)
    requires c !in s
    ensures BeforeFirst(s, c) == s
  {
    if s != [] {
      BeforeFirstAbsent(s[1..], c);
    }
  }

  /**
   * A text that is not a price and has no '€' is rejected, so a selector
   * yielding it sends the search on to the next selector.
   */
  lemma NonPriceSkipped(raw: string, find: string -> Option<string>, sels: seq<string>)
    requires raw != "" && !NumericPrice(raw) && '€' !in raw
    requires sels != [] && find(sels[0]) == Some(raw)
    ensures FieldText(PriceField, Some(raw)).None?
    ensures GetText(PriceField, find, sels) == GetText(PriceField, find, sels[1..])
  {
    assert FieldReader(PriceField, find)(sels[0]).None?;
  }

  // ---------------------------------------------------------------------
  // The fields of one record
  // ---------------------------------------------------------------------

  const TitleSelectors: seq<string> := [
    "h2.ma-AdCardV2-title", "a[class*=\"AdCard-title-link\"] h2", "h2[class*=\"title\"]",
    "[itemprop=\"name\"]", "h2"
  ]
  const PriceSelectors: seq<string> := [
    ".ma-AdPrice-value", "[class*=\"Price-value\"]", "[itemprop=\"price\"]",
    "[class*=\"price\"] strong", "[class*=\"AdPrice\"]", ".ma-AdMultiplePrice"
  ]
  const LocationSelectors: seq<string> := [
    ".ma-AdLocation-text", "[class*=\"Location-text\"]", ".ma-AdCard-location",
    "[itemprop=\"addressLocality\"]", "[class*=\"location\"] span", "address span"
  ]
  const DescriptionSelectors: seq<string> := [
    ".ma-AdCardV2-description", "p[class*=\"description\"]", "[itemprop=\"description\"]",
    ".ma-AdCard-description", "p.ma-SharedText"
  ]
  const TimeSelectors: seq<string> := [".ma-AdCardV2-time", "[class*=\"time\"]", "[class*=\"date\"]"]

  /** `text || fallback`. */
  function OrElse(text: string, fallback: string): (r: string)
    ensures text != "" ==> r == text
    ensures text == "" ==> r == fallback
  {
    if text != "" then text else fallback
  }

  /** The four displayed fields of a card, with their fallbacks. */
  datatype Fields = Fields(title: string, price: string, location: string, description: string)

  function CardFields(find: string -> Option<string>, index: nat): (f: Fields)
    ensures f.title != "" && f.price != "" && f.location != "" && f.description != ""
    ensures StartsWith(f.title, "Artículo ") || f.title == GetText(PlainField, find, TitleSelectors)
  {
    Fields(
      OrElse(GetText(PlainField, find, TitleSelectors), "Artículo " + DecimalString(index + 1)),
      OrElse(GetText(PriceField, find, PriceSelectors), "Precio no disponible"),
      OrElse(GetText(LocationField, find, LocationSelectors), "Ubicación no disponible"),
      OrElse(GetText(PlainField, find, DescriptionSelectors), "Sin descripción"))
  }

  // ---------------------------------------------------------------------
  // details
  // ---------------------------------------------------------------------

  /** The filter one trimmed detail text must pass. */
  predicate DetailAccepted(t: string, f: Fields) {
    t != "" && 1 < |t| < 50
    && t != f.title
    && !Contains(f.price, BeforeFirst(t, ' '))
    && !Contains(f.location, t)
    && !StartsWith(f.description, Prefix(t, 10))
    && !AllDigits(t)
  }

  /** The trimmed `innerText` of each detail element. */
  function TrimAll(texts: seq<string>): (r: seq<string>)
    ensures |r| == |texts|
    ensures forall i | 0 <= i < |texts| :: r[i] == Trim(texts[i])
  {
    if texts == [] then [] else [Trim(texts[0])] + TrimAll(texts[1..])
  }

  /**
   * The details kept from the first `n` trimmed texts: each one that `accept`
   * lets through and that has not been kept already, in element order.
   */
  function KeptDetails(ts: seq<string>, accept: string -> bool, n: nat): (r: seq<string>)
    requires n <= |ts|
    ensures |r| <= n
  {
    if n == 0 then []
    else
      var kept := KeptDetails(ts, accept, n - 1);
      var t := ts[n - 1];
      if accept(t) && t !in kept then kept + [t] else kept
  }

  /**
   * Every kept detail passes the filter, none is kept twice, and a text is
   * kept exactly when one of the first `n` texts is that text and passes.
   */
  lemma {:induction false} KeptDetailsSound(ts: seq<string>, accept: string -> bool, n: nat)
    requires n <= |ts|
    ensures var r := KeptDetails(ts, accept, n);
      && (forall i | 0 <= i < |r| :: accept(r[i]))
      && (forall i, j | 0 <= i < j < |r| :: r[i] != r[j])
      && (forall t :: t in r <==> exists j | 0 <= j < n :: ts[j] == t && accept(t))
  {
    if n > 0 {
      KeptDetailsSound(ts, accept, n - 1);
      var kept := KeptDetails(ts, accept, n - 1);
      var t := ts[n - 1];
      forall u ensures u in KeptDetails(ts, accept, n) <==> exists j | 0 <= j < n :: ts[j] == u && accept(u) {
        if u in KeptDetails(ts, accept, n) && u !in kept {
          assert ts[n - 1] == u && accept(u);
        }
        if (exists j | 0 <= j < n :: ts[j] == u && accept(u)) && u !in kept {
          var j :| 0 <= j < n && ts[j] == u && accept(u);
          assert j == n - 1;
        }
      }
    }
  }

  /** The details filter of a card with these fields. */
  function DetailFilter(f: Fields): string -> bool {
    t => DetailAccepted(t, f)
  }

  /**
   * The `detailElements.forEach` loop: `details` is the array pushed to and
   * `added` the `Set` that keeps it free of repeats; `accept` is the card's
   * `DetailFilter`.
   */
  method FilterDetails(texts: seq<string>, accept: string -> bool) returns (details: seq<string>)
    ensures details == KeptDetails(TrimAll(texts), accept, |texts|)
  {
    details := [];
    var added: set<string> := {};
    ghost var ts := TrimAll(texts);
    for i := 0 to |texts|
      invariant details == KeptDetails(ts, accept, i)
      invariant forall t :: t in added <==> t in details
    {
      var text := Trim(texts[i]);
      assert text == ts[i];
      assert text in added <==> text in details;
      var isNew := accept(text) && text !in added;
      assert KeptDetails(ts, accept, i + 1) == if isNew then details + [text] else details;
      if isNew {
        ghost var prev := details;
        details := details + [text];
        added := added + {text};
        forall t ensures t in added <==> t in details {
          assert t in details <==> t in prev || t == text;
        }
      }
    }
  }

  /** `idx` picks, in increasing order, positions below `n` of `ts` that spell `r`. */
  predicate Picks(ts: seq<string>, n: nat, r: seq<string>, idx: seq<nat>)
    requires n <= |ts|
  {
    |idx| == |r|
    && (forall i | 0 <= i < |idx| :: idx[i] < n && ts[idx[i]] == r[i])
    && (forall i, j | 0 <= i < j < |idx| :: idx[i] < idx[j])
  }

  /** Kept details are a subsequence of the trimmed texts: their order is element order. */
  lemma {:induction false} KeptInOrder(ts: seq<string>, accept: string -> bool, n: nat)
    returns (idx: seq<nat>)
    requires n <= |ts|
    ensures Picks(ts, n, KeptDetails(ts, accept, n), idx)
  {
    if n == 0 {
      idx := [];
    } else {
      var prev := KeptInOrder(ts, accept, n - 1);
      var kept := KeptDetails(ts, accept, n - 1);
      var t := ts[n - 1];
      if accept(t) && t !in kept {
        idx := prev + [n - 1];
        assert KeptDetails(ts, accept, n) == kept + [t];
      } else {
        idx := prev;
      }
    }
  }

  // ---------------------------------------------------------------------
  // url and imageUrl
  // ---------------------------------------------------------------------

  /** `new URL(x, window.location.origin).href`, `None` when the constructor throws. */
  type Resolver = string -> Option<string>

  /**
   * A link's href made absolute: kept when empty or starting with "http",
   * otherwise resolved against the page origin (kept as it is when that
   * throws, the error being swallowed after the assignment of the href).
   */
  function Absolute(href: string, resolve: Resolver): (r: string)
    ensures href == "" || StartsWith(href, "http") ==> r == href
    ensures r == href || resolve(href) == Some(r)
  {
    if href != "" && !StartsWith(href, "http") then resolve(href).GetOr(href) else href
  }

  /**
   * The card's url: the href of the title link if the card has one, else of
   * any link, made absolute; "" when it has no link.
   */
  function ArticleUrlOf(titleLink: Option<string>, anyLink: Option<string>, resolve: Resolver): string {
    if titleLink.Some? then Absolute(titleLink.value, resolve)
    else if anyLink.Some? then Absolute(anyLink.value, resolve)
    else ""
  }

  /** The assignments to `url`, with the `try` that keeps the href when resolution throws. */
  method ArticleUrl(titleLink: Option<string>, anyLink: Option<string>, resolve: Resolver) returns (url: string)
    ensures url == ArticleUrlOf(titleLink, anyLink, resolve)
    ensures titleLink.Some? ==> url == Absolute(titleLink.value, resolve)
    ensures titleLink.None? && anyLink.Some? ==> url == Absolute(anyLink.value, resolve)
    ensures titleLink.None? && anyLink.None? ==> url == ""
  {
    url := "";
    if titleLink.Some? {
      url := titleLink.value;
      if url != "" && !StartsWith(url, "http") {
        var resolved := resolve(url);
        if resolved.Some? {
          url := resolved.value;
        }
      }
    } else if anyLink.Some? {
      url := anyLink.value;
      if url != "" && !StartsWith(url, "http") {
        var resolved := resolve(url);
        if resolved.Some? {
          url := resolved.value;
        }
      }
    }
  }

  /** The card's first `img[src]`: its `src` property and its `data-src` and `data-lazy-src` attributes. */
  datatype Image = Image(src: string, dataSrc: Option<string>, dataLazySrc: Option<string>)

  /** `getAttribute('data-src') || getAttribute('data-lazy-src')`, `None` standing for a falsy result. */
  function LazySource(img: Image): (r: Option<string>)
    ensures r.Some? ==> r.value != ""
  {
    if img.dataSrc.Some? && img.dataSrc.value != "" then img.dataSrc
    else if img.dataLazySrc.Some? && img.dataLazySrc.value != "" then img.dataLazySrc
    else None
  }

  /**
   * The card's image url: a protocol-relative source gains "https:", another
   * source not starting with "http" is replaced by the lazy-loading source or
   * resolved against the origin (kept as it is when that throws), and an
   * "http://" url is upgraded to "https://".
   */
  function ImageUrlOf(img: Option<Image>, resolve: Resolver): string {
    if img.None? || img.value.src == "" then ""
    else
      var src := img.value.src;
      var u :=
        if StartsWith(src, "//") then "https:" + src
        else if StartsWith(src, "http") then src
        else match LazySource(img.value)
          case Some(lazy) => lazy
          case None => resolve(src).GetOr(src);
      if StartsWith(u, "http://") then "https://" + u[7..] else u
  }

  /** The assignments to `imageUrl`. The result never starts with "http://". */
  method ImageUrl(img: Option<Image>, resolve: Resolver) returns (imageUrl: string)
    ensures imageUrl == ImageUrlOf(img, resolve)
    ensures !StartsWith(imageUrl, "http://")
    ensures img.None? || img.value.src == "" ==> imageUrl == ""
    ensures img.Some? && StartsWith(img.value.src, "https://") ==> imageUrl == img.value.src
    ensures img.Some? && StartsWith(img.value.src, "http://") ==> imageUrl == "https://" + img.value.src[7..]
    ensures img.Some? && StartsWith(img.value.src, "//") ==> imageUrl == "https:" + img.value.src
  {
    imageUrl := "";
    if img.None? || img.value.src == "" {
      return;
    }
    var src := img.value.src;
    if StartsWith(src, "https://") {
      assert src[..4] == "http" && src[0] == 'h' && src[4] == 's';
    }
    if StartsWith(src, "http://") {
      assert src[..4] == "http" && src[0] == 'h';
    }
    imageUrl := src;
    if StartsWith(imageUrl, "//") {
      imageUrl := "https:" + imageUrl;
      assert imageUrl[5] == ':';
    } else if !StartsWith(imageUrl, "http") {
      var lazy := LazySource(img.value);
      if lazy.Some? {
        imageUrl := lazy.value;
      } else {
        var resolved := resolve(imageUrl);
        if resolved.None? {
          return;
        }
        imageUrl := resolved.value;
      }
    }
    if StartsWith(imageUrl, "http://") {
      imageUrl := "https://" + imageUrl[7..];
      assert imageUrl[4] == 's';
    }
  }

  // ---------------------------------------------------------------------
  // id
  // ---------------------------------------------------------------------

  /** The three url patterns tried for an id, in order. */
  datatype IdPattern =
    | HtmPage         // `/\/(\d+)\.htm/`
    | IdParam         // `/id=(\d+)/`
    | TrailingNumber  // `/\/(\d+)$/`

  /** After a capture ending at `e`, `\.htm` matches: a literal '.', then "htm". */
  predicate HtmTail(s: string, e: nat) {
    e < |s| && s[e] == '.' && OccursAt(s, "htm", e + 1)
  }

  /**
   * `\d+` cannot give back digits for `\.htm` to match: every shorter capture
   * ends before a digit, never before a '.'. So the greedy capture is the
   * only one that can succeed.
   */
  lemma NoShorterHtmCapture(s: string, p: nat)
    requires p < |s|
    ensures forall k | p < k < DigitRunEnd(s, p) :: !HtmTail(s, k)
  {
  }

  /** The capture of a match of `pat` starting at `p`. */
  function MatchAt(pat: IdPattern, s: string, p: nat): (r: Option<string>)
    ensures r.Some? ==> AllDigits(r.value)
  {
    match pat
    case HtmPage =>
      if p + 1 < |s| && s[p] == '/' && IsDigit(s[p + 1]) && HtmTail(s, DigitRunEnd(s, p + 1)) then
        Some(s[p + 1..DigitRunEnd(s, p + 1)])
      else None
    case IdParam =>
      if OccursAt(s, "id=", p) && p + 3 < |s| && IsDigit(s[p + 3]) then Some(s[p + 3..DigitRunEnd(s, p + 3)])
      else None
    case TrailingNumber =>
      if p + 1 < |s| && s[p] == '/' && DigitRunEnd(s, p + 1) == |s| then Some(s[p + 1..])
      else None
  }

  /** `s.match(pat)[1]` for the leftmost match at or after `p`. */
  function FirstMatch(pat: IdPattern, s: string, p: nat): (r: Option<string>)
    requires p <= |s|
    ensures r.Some? ==> AllDigits(r.value)
    decreases |s| - p
  {
    if p == |s| then None
    else if MatchAt(pat, s, p).Some? then MatchAt(pat, s, p)
    else FirstMatch(pat, s, p + 1)
  }

  /** The match found is the leftmost one from `p`; none is found only when no position matches. */
  lemma FirstMatchLeftmost(pat: IdPattern, s: string, p: nat)
    requires p <= |s|
    ensures FirstMatch(pat, s, p).Some? ==> exists q | p <= q < |s| ::
      (MatchAt(pat, s, q) == FirstMatch(pat, s, p) && forall k | p <= k < q :: MatchAt(pat, s, k).None?)
    ensures FirstMatch(pat, s, p).None? ==> forall q | p <= q < |s| :: MatchAt(pat, s, q).None?
  {
    if FirstMatch(pat, s, p).Some? {
      var q := FirstMatchWitness(pat, s, p);
    } else {
      NoFirstMatch(pat, s, p);
    }
  }

  /** Where the match found starts. */
  lemma {:induction false} FirstMatchWitness(pat: IdPattern, s: string, p: nat) returns (q: nat)
    requires p <= |s| && FirstMatch(pat, s, p).Some?
    ensures p <= q < |s| && MatchAt(pat, s, q) == FirstMatch(pat, s, p)
    ensures forall k | p <= k < q :: MatchAt(pat, s, k).None?
    decreases |s| - p
  {
    if MatchAt(pat, s, p).Some? {
      q := p;
    } else {
      q := FirstMatchWitness(pat, s, p + 1);
    }
  }

  /** No match is found only when no position from `p` matches. */
  lemma {:induction false} NoFirstMatch(pat: IdPattern, s: string, p: nat)
    requires p <= |s| && FirstMatch(pat, s, p).None?
    ensures forall q | p <= q < |s| :: MatchAt(pat, s, q).None?
    decreases |s| - p
  {
    if p < |s| {
      NoFirstMatch(pat, s, p + 1);
    }
  }

  /** `url.match(/\/(\d+)\.htm/) || url.match(/id=(\d+)/) || url.match(/\/(\d+)$/)`, capture 1. */
  function UrlId(url: string): (r: Option<string>)
    ensures r.Some? ==> AllDigits(r.value)
    ensures url == "" ==> r.None?
  {
    match FirstMatch(HtmPage, url, 0)
    case Some(d) => Some(d)
    case None =>
      match FirstMatch(IdParam, url, 0)
      case Some(d) => Some(d)
      case None => FirstMatch(TrailingNumber, url, 0)
  }

  /** The dot of `\.htm` is literal: "/12/htm" yields no id, "/12.htm" yields "12". */
  lemma LiteralDotOnly()
    ensures UrlId("/12/htm") == None
    ensures UrlId("/12.htm") == Some("12")
  {
    var bad := "/12/htm";
    assert !HtmTail(bad, 3);
    assert DigitRunEnd(bad, 1) == 3;
    assert FirstMatch(HtmPage, bad, 0) == None;
    assert FirstMatch(IdParam, bad, 0) == None;
    assert FirstMatch(TrailingNumber, bad, 0) == None;
    HtmIdOfListingUrl("", "12", "");
    assert "" + "/" + "12" + ".htm" + "" == "/12.htm";
  }

  /** `s.replace(/\s/g, '')`. */
  function RemoveWhiteSpace(s: string): (r: string)
    ensures forall i | 0 <= i < |r| :: !IsSpace(r[i])
  {
    if s == [] then []
    else if IsSpace(s[0]) then RemoveWhiteSpace(s[1..])
    else [s[0]] + RemoveWhiteSpace(s[1..])
  }

  /** The synthesised id: the title's first ten characters without white space, '_', the card index. */
  function FallbackId(title: string, index: nat): string {
    RemoveWhiteSpace(Prefix(title, 10)) + "_" + DecimalString(index)
  }

  /**
   * The card's id: its `data-id` attribute, else its element id, else the
   * number a url pattern captures, else the synthesised id.
   */
  function ArticleIdOf(dataId: Option<string>, elementId: string, url: string, title: string, index: nat): string {
    var found :=
      if dataId.Some? && dataId.value != "" then dataId.value
      else if elementId != "" then elementId
      else if url != "" && UrlId(url).Some? then UrlId(url).value
      else "";
    if found == "" then FallbackId(title, index) else found
  }

  /** The assignments to `id`. The id is never empty. */
  method ArticleId(dataId: Option<string>, elementId: string, url: string, title: string, index: nat)
    returns (id: string)
    ensures id == ArticleIdOf(dataId, elementId, url, title, index)
    ensures id != ""
    ensures dataId.Some? && dataId.value != "" ==> id == dataId.value
    ensures (dataId.None? || dataId.value == "") && elementId != "" ==> id == elementId
    ensures (dataId.None? || dataId.value == "") && elementId == "" && UrlId(url).Some? ==> id == UrlId(url).value
    ensures (dataId.None? || dataId.value == "") && elementId == "" && UrlId(url).None? ==> id == FallbackId(title, index)
  {
    id := "";
    if dataId.Some? && dataId.value != "" {
      id := dataId.value;
    } else if elementId != "" {
      id := elementId;
    } else if url != "" {
      var m := UrlId(url);
      if m.Some? {
        id := m.value;
      }
    }
    if id == "" {
      id := FallbackId(title, index);
    }
  }

  /** What follows the last '_' of `s` (all of `s` when it has none). */
  function AfterLastUnderscore(s: string): string {
    if s == [] || s[|s| - 1] == '_' then []
    else AfterLastUnderscore(s[..|s| - 1]) + [s[|s| - 1]]
  }

  /** A tail without '_' is what follows the last '_'. */
  lemma {:induction false} AfterLastOfJoin(a: string, d: string)
    requires '_' !in d
    ensures AfterLastUnderscore(a + "_" + d) == d
  {
    var s := a + "_" + d;
    if d == [] {
      assert s[|s| - 1] == '_';
    } else {
      assert s[..|s| - 1] == a + "_" + d[..|d| - 1];
      assert d[|d| - 1] in d;
      AfterLastOfJoin(a, d[..|d| - 1]);
    }
  }

  /** Synthesised ids of cards with different indexes differ, whatever their titles. */
  lemma FallbackIdsDistinct(t1: string, t2: string, i: nat, j: nat)
    requires FallbackId(t1, i) == FallbackId(t2, j)
    ensures i == j
  {
    DecimalStringDigits(i);
    DecimalStringDigits(j);
    var d1 := DecimalString(i);
    var d2 := DecimalString(j);
    assert '_' !in d1 by {
      assert forall k | 0 <= k < |d1| :: IsDigit(d1[k]);
    }
    assert '_' !in d2 by {
      assert forall k | 0 <= k < |d2| :: IsDigit(d2[k]);
    }
    AfterLastOfJoin(RemoveWhiteSpace(Prefix(t1, 10)), d1);
    AfterLastOfJoin(RemoveWhiteSpace(Prefix(t2, 10)), d2);
    DecimalStringInjective(i, j);
  }

  /**
   * A listing url "<a>/<digits>.htm<b>" yields `digits` as id, provided no
   * '/' in `a` is directly followed by a digit.
   */
  lemma HtmIdOfListingUrl(a: string, d: string, b: string)
    requires forall i | 0 <= i < |a| - 1 :: !(a[i] == '/' && IsDigit(a[i + 1]))
    requires AllDigits(d)
    ensures UrlId(a + "/" + d + ".htm" + b) == Some(d)
  {
    var s := a + "/" + d + ".htm" + b;
    NoHtmBefore(a, "/" + d + ".htm" + b);
    assert s == a + ("/" + d + ".htm" + b);
    HtmMatchAfter(a, d, b);
    FirstMatchIs(HtmPage, s, 0, |a|);
  }

  /** No `.htm` id starts inside a prefix where no '/' is followed by a digit, nor at its last character when a '/' follows. */
  lemma NoHtmBefore(a: string, rest: string)
    requires forall i | 0 <= i < |a| - 1 :: !(a[i] == '/' && IsDigit(a[i + 1]))
    requires rest != [] && rest[0] == '/'
    ensures forall k | 0 <= k < |a| :: MatchAt(HtmPage, a + rest, k).None?
  {
    var s := a + rest;
    forall k | 0 <= k < |a| ensures MatchAt(HtmPage, s, k).None? {
      if k < |a| - 1 {
        assert s[k] == a[k] && s[k + 1] == a[k + 1];
      } else {
        assert s[k + 1] == rest[0];
      }
    }
  }

  /** The `.htm` id right after `a` is the digit run `d`. */
  lemma HtmMatchAfter(a: string, d: string, b: string)
    requires AllDigits(d)
    ensures MatchAt(HtmPage, a + "/" + d + ".htm" + b, |a|) == Some(d)
  {
    var s := a + "/" + d + ".htm" + b;
    var q := |a|;
    var e := q + 1 + |d|;
    assert forall i | 0 <= i < |d| :: s[q + 1 + i] == d[i];
    assert s[e] == '.';
    DigitRunEndAt(s, q + 1, e);
    assert s[e + 1..e + 4] == "htm";
    assert HtmTail(s, e);
    assert s[q + 1..e] == d;
  }

  /** The first match from `p` is the one at `q` when nothing matches in between. */
  lemma {:induction false} FirstMatchIs(pat: IdPattern, s: string, p: nat, q: nat)
    requires p <= q < |s| && MatchAt(pat, s, q).Some?
    requires forall k | p <= k < q :: MatchAt(pat, s, k).None?
    ensures FirstMatch(pat, s, p) == MatchAt(pat, s, q)
    decreases q - p
  {
    if p < q {
      assert MatchAt(pat, s, p).None?;
      FirstMatchIs(pat, s, p + 1, q);
      assert FirstMatch(pat, s, p) == FirstMatch(pat, s, p + 1);
    } else {
      assert FirstMatch(pat, s, p) == MatchAt(pat, s, p);
    }
  }

  // ---------------------------------------------------------------------
  // One record per card
  // ---------------------------------------------------------------------

  /** What the page tells about one card. */
  datatype Card = Card(
    /** The message of an exception escaping the card's processing, if one does. */
    fails: Option<string>,
    /** The `innerText` of the first element a selector matches in the card. */
    find: string -> Option<string>,
    /** The `innerText` of each detail element, in document order. */
    detailTexts: seq<string>,
    /** The href of the title link, and of the first link of any kind. */
    titleLink: Option<string>,
    anyLink: Option<string>,
    image: Option<Image>,
    /** The `data-id` attribute, and the element id ("" when it has none). */
    dataId: Option<string>,
    elementId: string)

  const ItemErrorText: string := "Error procesando artículo individual"

  /**
   * What the record for the card at `index` holds: an error record exactly
   * when the card's processing throws, otherwise an ad with the fields,
   * details, url, image url, id and date read from the card; its id is never
   * empty and its image url is never insecure.
   */
  predicate RecordOf(card: Card, index: nat, resolve: Resolver, r: Record) {
    && (r.ItemError? <==> card.fails.Some?)
    && (r.ItemError? ==>
          r == ItemError("error_" + DecimalString(index), ItemErrorText, card.fails.value))
    && (r.Ad? ==>
          && Fields(r.title, r.price, r.location, r.description) == CardFields(card.find, index)
          && r.details == KeptDetails(TrimAll(card.detailTexts), DetailFilter(CardFields(card.find, index)), |card.detailTexts|)
          && r.url == ArticleUrlOf(card.titleLink, card.anyLink, resolve)
          && r.imageUrl == ImageUrlOf(card.image, resolve)
          && r.id == ArticleIdOf(card.dataId, card.elementId, r.url, r.title, index)
          && r.date == GetText(PlainField, card.find, TimeSelectors)
          && r.id != "" && !StartsWith(r.imageUrl, "http://"))
  }

  /** The body of the `articles.forEach` callback for the card at `index`. */
  method ExtractCard(card: Card, index: nat, resolve: Resolver) returns (r: Record)
    ensures RecordOf(card, index, resolve, r)
  {
    if card.fails.Some? {
      return ItemError("error_" + DecimalString(index), ItemErrorText, card.fails.value);
    }
    var f := CardFields(card.find, index);
    var details := FilterDetails(card.detailTexts, DetailFilter(f));
    var url := ArticleUrl(card.titleLink, card.anyLink, resolve);
    var imageUrl := ImageUrl(card.image, resolve);
    var id := ArticleId(card.dataId, card.elementId, url, f.title, index);
    var date := GetText(PlainField, card.find, TimeSelectors);
    r := Ad(id, f.title, f.price, f.location, f.description, details, url, imageUrl, date);
  }

  /** The extraction script: exactly one record per card, in document order. */
  method ExtractListings(cards: seq<Card>, resolve: Resolver) returns (data: seq<Record>)
    ensures |data| == |cards|
    ensures forall i | 0 <= i < |cards| :: RecordOf(cards[i], i, resolve, data[i])
  {
    data := [];
    for index := 0 to |cards|
      invariant |data| == index
      invariant forall i | 0 <= i < index :: RecordOf(cards[i], i, resolve, data[i])
    {
      var r := ExtractCard(cards[index], index, resolve);
      data := data + [r];
    }
  }

  const NoArticlesError: string := "No se encontraron artículos"
  const EvaluateError: string := "Error durante la extracción de datos en page.evaluate"
  const GeneralErrorPrefix: string := "Error general en extractData: "

  /**
   * `extractData`. `failure` is the message of an exception from the browser
   * outside the extraction script (caught by the outer handler), `count`
   * the selector counts, `cardsOf` the cards a selector matches,
   * `evalFailure` the text of an exception inside the extraction script.
   */
  method ExtractData(failure: Option<string>, count: string -> nat, cardsOf: string -> seq<Card>,
                     evalFailure: Option<string>, resolve: Resolver)
    returns (v: PageValue, selector: string, found: nat)
    ensures failure.Some? ==> v == ErrorValue(GeneralErrorPrefix + failure.value, None)
    ensures failure.None? ==> SelectorChoice(count, selector, found)
    ensures failure.None? && found == 0 ==> v == ErrorValue(NoArticlesError, None)
    ensures failure.None? && found > 0 && evalFailure.Some? ==> v == ErrorValue(EvaluateError, evalFailure)
    ensures failure.None? && found > 0 && evalFailure.None? ==>
      && v.Listings? && |v.items| == |cardsOf(selector)|
      && forall i | 0 <= i < |v.items| :: RecordOf(cardsOf(selector)[i], i, resolve, v.items[i])
    ensures v.ErrorValue? ==> HasError(v)
  {
    selector, found := ChooseArticleSelector(count);
    if failure.Some? {
      return ErrorValue(GeneralErrorPrefix + failure.value, None), selector, found;
    }
    if found == 0 {
      return ErrorValue(NoArticlesError, None), selector, found;
    }
    if evalFailure.Some? {
      return ErrorValue(EvaluateError, evalFailure), selector, found;
    }
    var data := ExtractListings(cardsOf(selector), resolve);
    v := Listings(data);
  }
}
