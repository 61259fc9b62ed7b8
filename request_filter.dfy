/**
 * The request-interception rule: every request the page makes is either
 * aborted or continued, decided from its URL and resource type alone. The
 * same rule is installed by `setupRequestInterception` and, inline, by the
 * main scraping function.
 */
module RequestFilter {
  import opened JsText

  datatype Decision = Abort | Continue

  /** The blocking condition as the source writes it, clause by clause. */
  predicate Blocked(url: string, resourceType: string) {
    (resourceType == "image" && !Contains(url, "milanuncios.com"))
    || resourceType == "media"
    || Contains(url, "google-analytics")
    || Contains(url, "facebook.net")
    || Contains(url, "doubleclick.net")
    || Contains(url, "amazon-adsystem")
    || Contains(url, "/ads/")
    || Contains(url, "analytics")
    || Contains(url, "tracker")
  }

  /** URL fragments that block a request of any type. */
  const BlockedFragments: seq<string> :=
    ["facebook.net", "doubleclick.net", "amazon-adsystem", "/ads/", "analytics", "tracker"]

  /**
   * The rule stated independently: media always, third-party images, and any
   * URL containing one of `BlockedFragments`.
   */
  predicate ShouldBlock(url: string, resourceType: string) {
    resourceType == "media"
    || (resourceType == "image" && !Contains(url, "milanuncios.com"))
    || exists i | 0 <= i < |BlockedFragments| :: Contains(url, BlockedFragments[i])
  }

  /** The request handler: exactly one of `abort` and `continue` per request. */
  function HandleRequest(url: string, resourceType: string): (d: Decision)
    ensures d == Abort <==> ShouldBlock(url, resourceType)
    ensures d == Continue <==> !ShouldBlock(url, resourceType)
  {
    BlockedIsShouldBlock(url, resourceType);
    if Blocked(url, resourceType) then Abort else Continue
  }

  /** Any URL containing "google-analytics" contains "analytics": that clause is subsumed. */
  lemma GoogleAnalyticsSubsumed(url: string)
    requires Contains(url, "google-analytics")
    ensures Contains(url, "analytics")
  {
    var i :| 0 <= i <= |url| - 16 && OccursAt(url, "google-analytics", i);
    assert url[i + 7..i + 16] == url[i..i + 16][7..] == "analytics";
    assert OccursAt(url, "analytics", i + 7);
  }

  /** The clause-by-clause condition and the independent statement agree on every request. */
  lemma BlockedIsShouldBlock(url: string, resourceType: string)
    ensures Blocked(url, resourceType) <==> ShouldBlock(url, resourceType)
  {
    var F := BlockedFragments;
    assert F[0] == "facebook.net" && F[1] == "doubleclick.net" && F[2] == "amazon-adsystem";
    assert F[3] == "/ads/" && F[4] == "analytics" && F[5] == "tracker";
    if Contains(url, "google-analytics") {
      GoogleAnalyticsSubsumed(url);
    }
    var anyFragment := exists i | 0 <= i < |F| :: Contains(url, F[i]);
    if anyFragment {
      var i :| 0 <= i < |F| && Contains(url, F[i]);
      assert i == 0 || i == 1 || i == 2 || i == 3 || i == 4 || i == 5;
    }
    if Contains(url, "facebook.net") { assert Contains(url, F[0]); }
    if Contains(url, "doubleclick.net") { assert Contains(url, F[1]); }
    if Contains(url, "amazon-adsystem") { assert Contains(url, F[2]); }
    if Contains(url, "/ads/") { assert Contains(url, F[3]); }
    if Contains(url, "analytics") { assert Contains(url, F[4]); }
    if Contains(url, "tracker") { assert Contains(url, F[5]); }
  }

  /** Media is aborted whatever its URL. */
  lemma MediaAborted(url: string)
    ensures HandleRequest(url, "media") == Abort
  {
  }

  /**
   * An image from the site itself is continued unless its URL matches one of
   * the other clauses: the exemption does not override them.
   */
  lemma ImageExemption(url: string)
    requires Contains(url, "milanuncios.com")
    ensures HandleRequest(url, "image") == Continue
      <==> forall i | 0 <= i < |BlockedFragments| :: !Contains(url, BlockedFragments[i])
  {
  }

  /** A site image whose URL also names a tracker is still aborted. */
  lemma SiteTrackerImageAborted()
    ensures HandleRequest("https://www.milanuncios.com/tracker/pixel.gif", "image") == Abort
  {
    var url := "https://www.milanuncios.com/tracker/pixel.gif";
    assert url[28..35] == "tracker";
    assert OccursAt(url, "tracker", 28);
    assert Contains(url, BlockedFragments[5]);
  }

  /** A document request with no blocked fragment continues. */
  lemma PlainDocumentContinues(url: string)
    requires forall i | 0 <= i < |BlockedFragments| :: !Contains(url, BlockedFragments[i])
    ensures HandleRequest(url, "document") == Continue
  {
  }
}
