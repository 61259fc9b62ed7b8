/**
 * The attempt loop of `scrapeMilanuncios`: up to three attempts, each of which
 * launches a browser, loads and scrolls the page and extracts the listings.
 * What an attempt comes to is an oracle input; the loop decides whether to
 * return, retry at once, or wait and retry, and closes the browser on every
 * way out.
 */
module Scrape {
  import opened JsText
  import opened Listing
  import opened Wrappers

  /** Retries after the first attempt. */
  const MaxRetries: nat := 2

  /**
   * How one pass through the `try` block ends. A `browser.close()` that
   * rejects is recorded with the attempt: `tryClose` is the rejection of the
   * close in the `try` block, `catchClose` that of the close in the `catch`
   * block, and `None` means the close resolved.
   */
  datatype AttemptOutcome =
      /** An exception escaped before extraction returned; `afterLaunch` says whether the browser was open. */
    | Threw(afterLaunch: bool, message: string, catchClose: Option<string>)
      /** Extraction returned this value. */
    | Extracted(value: PageValue, tryClose: Option<string>, catchClose: Option<string>)

  /** What the caller receives. */
  datatype ScrapeResult =
      /** The extracted array (or `[]`). */
    | Data(items: seq<Record>)
      /** `{error, message, partial: true}` after the last extraction error. */
    | Partial(error: string, message: string)
      /** The `Error` thrown to the caller after the last exception. */
    | Failed(message: string)
      /** The rejection of the `catch` block's `browser.close()`, which reaches the caller unwrapped. */
    | Escaped(message: string)

  const PartialMessage: string := "No se pudieron extraer datos después de múltiples intentos"

  /** The message of the error rethrown after the last attempt. */
  function FinalErrorMessage(m: string): (r: string)
    ensures r == "Error después de 3 intentos: " + m
  {
    "Error después de " + DecimalString(MaxRetries + 1) + " intentos: " + m
  }

  /**
   * What the `catch` block sees of an attempt: a rejected close after
   * extraction is an exception thrown with the browser still open, and the
   * `catch` block then closes it again.
   */
  function Effective(o: AttemptOutcome): AttemptOutcome {
    if o.Extracted? && o.tryClose.Some? then Threw(true, o.tryClose.value, o.catchClose) else o
  }

  /** The `catch` block's own close rejects, so its error leaves the loop. */
  predicate Escapes(o: AttemptOutcome) {
    Effective(o).Threw? && Effective(o).afterLaunch && Effective(o).catchClose.Some?
  }

  /** An attempt that leads to another one, unless it was the last or its error escapes. */
  predicate Retried(o: AttemptOutcome) {
    Effective(o).Threw? || HasError(Effective(o).value)
  }

  /** The wait after a failed attempt, in milliseconds. */
  function RetryDelay(attempt: nat): nat {
    (attempt + 1) * 5000
  }

  /** The waits taken during the first `n` attempts: one after each that reached the `catch` block. */
  function Delays(outcome: nat -> AttemptOutcome, n: nat): seq<nat> {
    if n == 0 then []
    else Delays(outcome, n - 1) + (if Effective(outcome(n - 1)).Threw? then [RetryDelay(n - 1)] else [])
  }

  /**
   * `scrapeMilanuncios` over the outcomes of its attempts. `attempts` is how
   * many were made, `waits` the back-off sleeps in order, `launches` counts
   * browser launches and `closes` the closes that resolved.
   */
  method ScrapeMilanuncios(outcome: nat -> AttemptOutcome)
    returns (result: ScrapeResult, attempts: nat, waits: seq<nat>, launches: nat, closes: nat)
    ensures 1 <= attempts <= MaxRetries + 1
    ensures forall j | 0 <= j < attempts - 1 :: Retried(outcome(j)) && !Escapes(outcome(j))
    ensures attempts <= MaxRetries ==> !Retried(outcome(attempts - 1)) || Escapes(outcome(attempts - 1))
    ensures Escapes(outcome(attempts - 1)) ==> result == Escaped(outcome(attempts - 1).catchClose.value)
    ensures !Retried(outcome(attempts - 1)) ==> result == Data(ItemsOrEmpty(outcome(attempts - 1).value))
    ensures Effective(outcome(attempts - 1)).Extracted? && HasError(outcome(attempts - 1).value) ==>
      result == Partial(outcome(attempts - 1).value.error, PartialMessage)
    ensures Effective(outcome(attempts - 1)).Threw? && !Escapes(outcome(attempts - 1)) ==>
      result == Failed(FinalErrorMessage(Effective(outcome(attempts - 1)).message))
    ensures waits == Delays(outcome, attempts - 1)
    ensures launches <= attempts
    ensures closes == if result.Escaped? then launches - 1 else launches
  {
    var browserOpen := false;
    launches, closes := 0, 0;
    waits := [];
    var attempt: nat := 0;
    while attempt <= MaxRetries
      invariant attempt <= MaxRetries
      invariant !browserOpen && closes == launches <= attempt
      invariant forall j | 0 <= j < attempt :: Retried(outcome(j)) && !Escapes(outcome(j))
      invariant waits == Delays(outcome, attempt)
      decreases MaxRetries - attempt
    {
      // The exception the `catch` block receives, if any.
      var caught: Option<string> := None;
      match outcome(attempt) {
      case Threw(afterLaunch, message, _) =>
        if afterLaunch {
          launches, browserOpen := launches + 1, true;
        }
        caught := Some(message);
      case Extracted(value, tryClose, _) =>
        launches, browserOpen := launches + 1, true;
        if tryClose.Some? {
          caught := tryClose;
        } else {
          closes, browserOpen := closes + 1, false;
          if !HasError(value) {
            return Data(ItemsOrEmpty(value)), attempt + 1, waits, launches, closes;
          }
          if attempt == MaxRetries {
            return Partial(value.error, PartialMessage), attempt + 1, waits, launches, closes;
          }
        }
      }
      if caught.Some? {
        if browserOpen {
          if outcome(attempt).catchClose.Some? {
            return Escaped(outcome(attempt).catchClose.value), attempt + 1, waits, launches, closes;
          }
          closes, browserOpen := closes + 1, false;
        }
        if attempt == MaxRetries {
          return Failed(FinalErrorMessage(caught.value)), attempt + 1, waits, launches, closes;
        }
        waits := waits + [RetryDelay(attempt)];
      }
      attempt := attempt + 1;
    }
    assert false;
  }

  /** An attempt that extracted data with no error still leads to a retry when its `browser.close()` rejects. */
  lemma ExtractedThenCloseRejects(items: seq<Record>, m: string)
    ensures Retried(Extracted(Listings(items), Some(m), None))
    ensures !Escapes(Extracted(Listings(items), Some(m), None))
    ensures Escapes(Extracted(Listings(items), Some(m), Some(m)))
    ensures !Retried(Extracted(Listings(items), None, Some(m)))
  {
  }

  /** Back-off is linear: the waits are 5000 ms then 10000 ms, each taken only after an attempt that threw. */
  lemma {:induction false} DelaysAreLinear(outcome: nat -> AttemptOutcome, n: nat)
    requires n <= MaxRetries
    ensures |Delays(outcome, n)| <= n
    ensures forall i | 0 <= i < |Delays(outcome, n)| :: Delays(outcome, n)[i] in {5000, 10000}
    ensures forall i, j | 0 <= i < j < |Delays(outcome, n)| :: Delays(outcome, n)[i] < Delays(outcome, n)[j]
    ensures |Delays(outcome, n)| == n <==> forall j | 0 <= j < n :: Effective(outcome(j)).Threw?
  {
    if n > 0 {
      DelaysAreLinear(outcome, n - 1);
      DelaysBelow(outcome, n - 1);
    }
  }

  /** Every wait taken during the first `n` attempts is shorter than the next attempt's. */
  lemma {:induction false} DelaysBelow(outcome: nat -> AttemptOutcome, n: nat)
    ensures forall i | 0 <= i < |Delays(outcome, n)| :: Delays(outcome, n)[i] < RetryDelay(n)
    ensures |Delays(outcome, n)| <= n
  {
    if n > 0 {
      DelaysBelow(outcome, n - 1);
    }
  }
}
