/**
 * The listing-count texts of the results page ("12.345 anuncios"), read with
 * the pattern `/(\d+(?:\.\d+)?)\s*anuncios?/i` and turned into a number by
 * removing the dots of the capture and calling `parseInt(…, 10)`. Both the
 * pagination module and the extractor read counts this way.
 *
 * The pattern is scanned by hand. It never needs to backtrack: giving back a
 * digit of `\d+`, the optional fraction or a white-space character always
 * leaves a digit, a '.' or white space where `\s*` or the word must go on, so
 * the greedy reading from a start position is the only one that can succeed.
 * The `i` flag matters only for the ASCII letters of "anuncio"; without the
 * `u` flag no non-ASCII character folds onto them.
 */
module CountText {
  import opened Wrappers
  import opened JsText

  /** The end of the numeral `\d+(?:\.\d+)?` read greedily from the digit at `p`. */
  function NumeralEnd(s: string, p: nat): (e: nat)
    requires p < |s| && IsDigit(s[p])
    ensures p < e <= |s|
    ensures forall i | p <= i < e :: IsDigit(s[i]) || s[i] == '.'
  {
    var e1 := DigitRunEnd(s, p);
    if e1 + 1 < |s| && s[e1] == '.' && IsDigit(s[e1 + 1]) then DigitRunEnd(s, e1 + 1) else e1
  }

  /** The capture `(\d+(?:\.\d+)?)` of a match of the count pattern starting at `p`, if one starts there. */
  function CountMatchAt(s: string, p: nat): (r: Option<string>)
    ensures r.Some? ==> |r.value| > 0 && IsDigit(r.value[0])
    ensures r.Some? ==> forall x | x in r.value :: IsDigit(x) || x == '.'
  {
    if p < |s| && IsDigit(s[p]) then
      var e := NumeralEnd(s, p);
      if WordAt(s, SpaceRunEnd(s, e), "anuncio") then Some(s[p..e]) else None
    else None
  }

  /** The least index in `[p, n)` that `ok` holds at, if there is one. */
  function FirstWhere(ok: nat -> bool, p: nat, n: nat): (r: Option<nat>)
    requires p <= n
    ensures r.Some? ==> p <= r.value < n && ok(r.value)
    ensures r.Some? ==> forall q | p <= q < r.value :: !ok(q)
    ensures r.None? ==> forall q | p <= q < n :: !ok(q)
    decreases n - p
  {
    if p == n then None
    else if ok(p) then Some(p)
    else FirstWhere(ok, p + 1, n)
  }

  /** Indices where `ok` fails do not change where it first holds. */
  lemma {:induction false} FirstWhereSkips(ok: nat -> bool, p: nat, q: nat, n: nat)
    requires p <= q <= n
    requires forall k | p <= k < q :: !ok(k)
    ensures FirstWhere(ok, p, n) == FirstWhere(ok, q, n)
    decreases q - p
  {
    if p < q {
      FirstWhereSkips(ok, p + 1, q, n);
    }
  }

  /** The positions of `s` where a match of the count pattern starts. */
  function MatchStarts(s: string): nat -> bool {
    (q: nat) => CountMatchAt(s, q).Some?
  }

  /** The start of the leftmost match at or after `p`: where `String.prototype.match` finds it. */
  function FirstCountMatch(s: string, p: nat): (r: Option<nat>)
    requires p <= |s|
  {
    FirstWhere(MatchStarts(s), p, |s|)
  }

  /** The capture of the first match in `s`, if the pattern matches at all. */
  function CountCapture(s: string): (r: Option<string>)
    ensures r.Some? ==> |r.value| > 0 && IsDigit(r.value[0])
    ensures r.Some? ==> forall x | x in r.value :: IsDigit(x) || x == '.'
  {
    match FirstCountMatch(s, 0)
    case None => None
    case Some(q) => CountMatchAt(s, q)
  }

  /** The capture is that of a match in `s`, and there is one exactly when some match exists. */
  lemma CountCaptureOfMatch(s: string)
    ensures CountCapture(s).Some? ==> exists q | 0 <= q < |s| :: CountMatchAt(s, q) == CountCapture(s)
    ensures CountCapture(s).None? ==> forall q: nat :: CountMatchAt(s, q).None?
  {
    var r := FirstWhere(MatchStarts(s), 0, |s|);
    if r.Some? {
      assert CountMatchAt(s, r.value) == CountCapture(s);
    } else {
      forall q: nat ensures CountMatchAt(s, q).None? {
        if q < |s| {
          assert !MatchStarts(s)(q);
        }
      }
    }
  }

  /** `parseInt(capture.replace(/\./g, ''), 10)` of the first match, `None` when nothing matches. */
  function ParseCount(s: string): (r: Option<nat>)
    ensures r.Some? <==> CountCapture(s).Some?
  {
    match CountCapture(s)
    case None => None
    case Some(c) => Some(CaptureValue(c))
  }

  /** The number a capture of digits and dots stands for once its dots are dropped. */
  function CaptureValue(c: string): nat
    requires forall x | x in c :: IsDigit(x) || x == '.'
  {
    var digits := RemoveAll(c, '.');
    assert forall i | 0 <= i < |digits| :: IsDigit(digits[i]) by {
      forall i | 0 <= i < |digits| ensures IsDigit(digits[i]) {
        assert digits[i] in digits;
      }
    }
    DigitsValue(digits)
  }

  /** The number is what `parseInt` makes of the dot-free capture: it is never NaN. */
  lemma ParseCountIsParseInt(s: string)
    requires CountCapture(s).Some?
    ensures ParseInt(RemoveAll(CountCapture(s).value, '.')) == Some(ParseCount(s).value as int)
  {
    var c := CountCapture(s).value;
    CaptureDigits(c);
    ParseIntOfDigits(RemoveAll(c, '.'));
  }

  /** A capture with its dots removed is a non-empty string of digits. */
  lemma CaptureDigits(c: string)
    requires |c| > 0 && IsDigit(c[0])
    requires forall x | x in c :: IsDigit(x) || x == '.'
    ensures AllDigits(RemoveAll(c, '.'))
  {
    var digits := RemoveAll(c, '.');
    assert digits == [c[0]] + RemoveAll(c[1..], '.');
    forall i | 0 <= i < |digits| ensures IsDigit(digits[i]) {
      assert digits[i] in digits;
    }
  }

  /** `DigitRunEnd` stops exactly where a known run of digits ends. */
  lemma DigitRunEndAt(s: string, p: nat, e: nat)
    requires p <= e <= |s|
    requires forall i | p <= i < e :: IsDigit(s[i])
    requires e == |s| || !IsDigit(s[e])
    ensures DigitRunEnd(s, p) == e
  {
  }

  /** `replace(/c/g, '')` works piece by piece. */
  lemma {:induction false} RemoveAllConcat(a: string, b: string, c: char)
    ensures RemoveAll(a + b, c) == RemoveAll(a, c) + RemoveAll(b, c)
  {
    if a == [] {
      assert a + b == b;
    } else {
      assert (a + b)[0] == a[0];
      assert (a + b)[1..] == a[1..] + b;
      RemoveAllConcat(a[1..], b, c);
    }
  }

  /** A numeral followed by " anuncios" reads back as its number. */
  lemma {:induction false} ParseCountOfNumeral(n: nat)
    ensures ParseCount(DecimalString(n) + " anuncios") == Some(n)
  {
    DecimalStringDigits(n);
    var d := DecimalString(n);
    var s := d + " anuncios";
    DigitsCountMatch(d);
    assert MatchStarts(s)(0);
    assert FirstCountMatch(s, 0) == Some(0);
    RemoveAbsent(d, '.');
  }

  /** A run of digits followed by " anuncios" is a match of the count pattern capturing the digits. */
  lemma DigitsCountMatch(d: string)
    requires AllDigits(d)
    ensures CountMatchAt(d + " anuncios", 0) == Some(d)
  {
    var s := d + " anuncios";
    assert forall i | 0 <= i < |d| :: s[i] == d[i];
    DigitRunEndAt(s, 0, |d|);
    assert NumeralEnd(s, 0) == |d|;
    assert SpaceRunEnd(s, |d| + 1) == |d| + 1;
    assert SpaceRunEnd(s, |d|) == |d| + 1;
    assert WordAt(s, |d| + 1, "anuncio");
    assert s[0..|d|] == d;
  }

  /** A string of digits has no '.' to remove. */
  lemma DigitsHaveNoDot(x: string)
    requires forall i | 0 <= i < |x| :: IsDigit(x[i])
    ensures RemoveAll(x, '.') == x
  {
    assert '.' !in x;
    RemoveAbsent(x, '.');
  }

  /** The word the mention test looks for is already in lower case. */
  lemma AnunciosLower()
    ensures forall i | 0 <= i < 8 :: Lower("anuncios"[i]) == "anuncios"[i]
  {
  }

  /** A lower-case word that occurs at `k` is spelt there in the sense of `WordAt`. */
  lemma WordOccurs(s: string, k: nat, w: string)
    requires forall i | 0 <= i < |w| :: Lower(w[i]) == w[i]
    requires OccursAt(s, w, k)
    ensures WordAt(s, k, w)
  {
    forall i | 0 <= i < |w| ensures Lower(s[k + i]) == w[i] {
      assert s[k + i] == s[k..k + |w|][i];
    }
  }

  /** The numeral of `x + "." + y` starting at `p` ends after `y`. */
  lemma SeparatedNumeralAt(s: string, p: nat, x: string, y: string)
    requires AllDigits(x) && AllDigits(y)
    requires p + |x| + 1 + |y| <= |s| && s[p..p + |x| + 1 + |y|] == x + "." + y
    requires p + |x| + 1 + |y| == |s| || !IsDigit(s[p + |x| + 1 + |y|])
    ensures NumeralEnd(s, p) == p + |x| + 1 + |y|
  {
    var t := x + "." + y;
    var e := p + |t|;
    forall i | 0 <= i < |t| ensures s[p + i] == t[i] {
      assert s[p..e][i] == s[p + i];
    }
    assert forall i | 0 <= i < |x| :: t[i] == x[i];
    assert forall i | 0 <= i < |y| :: t[|x| + 1 + i] == y[i];
    assert s[p + |x|] == t[|x|] == '.';
    DigitRunEndAt(s, p, p + |x|);
    DigitRunEndAt(s, p + |x| + 1, e);
  }

  /** A thousands-separated count text starting at `p` is a match there. */
  lemma SeparatedMatchAt(s: string, p: nat, x: string, y: string)
    requires AllDigits(x) && AllDigits(y)
    requires p <= |s| && s[p..] == x + "." + y + " anuncios"
    ensures CountMatchAt(s, p) == Some(x + "." + y)
  {
    var e := p + |x| + 1 + |y|;
    SeparatedTextAt(s, p, x + "." + y);
    assert (x + "." + y)[0] == x[0];
    SeparatedNumeralAt(s, p, x, y);
    assert SpaceRunEnd(s, e) == e + 1;
    WordOccurs(s, e + 1, "anuncio");
  }

  /** Where a count text `t + " anuncios"` sits in `s` from `p`: its numeral, the space, the word. */
  lemma SeparatedTextAt(s: string, p: nat, t: string)
    requires p <= |s| && s[p..] == t + " anuncios"
    ensures var e := p + |t|;
      && e + 8 < |s| && s[p..e] == t && (|t| > 0 ==> s[p] == t[0])
      && s[e] == ' ' && s[e + 1] == 'a' && OccursAt(s, "anuncio", e + 1)
  {
    var u := t + " anuncios";
    var e := p + |t|;
    assert s[p..e] == s[p..][..|t|] == u[..|t|] == t;
    assert s[e] == u[|t|];
    assert s[e + 1] == u[|t| + 1];
    assert s[e + 1..e + 8] == u[|t| + 1..|t| + 8];
  }

  /** Where the count pattern matches a thousands-separated count text, and what it captures. */
  lemma SeparatedCapture(x: string, y: string)
    requires AllDigits(x) && AllDigits(y)
    ensures CountCapture(x + "." + y + " anuncios") == Some(x + "." + y)
  {
    var s := x + "." + y + " anuncios";
    assert s[0..] == s;
    SeparatedMatchAt(s, 0, x, y);
    assert FirstCountMatch(s, 0) == Some(0);
  }

  /**
   * A thousands-separated count ("12.345 anuncios") reads as the number the
   * digits spell once the separator is dropped.
   */
  lemma SeparatedCount(x: string, y: string)
    requires AllDigits(x) && AllDigits(y)
    ensures ParseCount(x + "." + y + " anuncios") == Some(DigitsValue(x + y))
  {
    var c := x + "." + y;
    SeparatedCapture(x, y);
    assert RemoveAll(c, '.') == x + y by {
      RemoveAllConcat(x + ".", y, '.');
      RemoveAllConcat(x, ".", '.');
      DigitsHaveNoDot(x);
      DigitsHaveNoDot(y);
      assert RemoveAll(".", '.') == [];
    }
  }

  /** The singular form matches too, whatever the case of its letters. */
  lemma SingularCount(x: string)
    requires AllDigits(x)
    ensures ParseCount(x + " Anuncio") == Some(DigitsValue(x))
  {
    var s := x + " Anuncio";
    assert forall i | 0 <= i < |x| :: s[i] == x[i];
    DigitRunEndAt(s, 0, |x|);
    assert NumeralEnd(s, 0) == |x|;
    assert SpaceRunEnd(s, |x|) == |x| + 1;
    assert WordAt(s, |x| + 1, "anuncio");
    assert s[0..|x|] == x;
    assert FirstCountMatch(s, 0) == Some(0);
    DigitsHaveNoDot(x);
  }

  /**
   * No match starts inside a run of digits that a separator, more digits and
   * another '.' follow.
   */
  lemma NoMatchBeforeSecondSeparator(s: string, q: nat, e: nat, m: nat)
    requires q < e && e + 1 < m < |s|
    requires forall i | q <= i < e :: IsDigit(s[i])
    requires s[e] == '.' && s[m] == '.'
    requires forall i | e < i < m :: IsDigit(s[i])
    ensures CountMatchAt(s, q).None?
  {
    DigitRunEndAt(s, q, e);
    DigitRunEndAt(s, e + 1, m);
    assert NumeralEnd(s, q) == m;
    assert SpaceRunEnd(s, m) == m;
    assert !WordAt(s, m, "anuncio") by { assert Lower(s[m + 0]) != "anuncio"[0]; }
  }

  /** Where the count pattern first matches a text with two separators, and what it captures. */
  lemma TwoSeparatorsCapture(x: string, y: string, z: string)
    requires AllDigits(x) && AllDigits(y) && AllDigits(z)
    ensures CountCapture(x + "." + y + "." + z + " anuncios") == Some(y + "." + z)
  {
    var s := x + "." + y + "." + z + " anuncios";
    var m := |x| + 1 + |y|;
    assert forall i | 0 <= i < |x| :: s[i] == x[i];
    assert forall i | 0 <= i < |y| :: s[|x| + 1 + i] == y[i];
    assert s[|x|] == '.' && s[m] == '.';
    forall q | 0 <= q < |x| ensures CountMatchAt(s, q).None? {
      NoMatchBeforeSecondSeparator(s, q, |x|, m);
    }
    assert CountMatchAt(s, |x|).None?;
    assert s[|x| + 1..] == y + "." + z + " anuncios";
    SeparatedMatchAt(s, |x| + 1, y, z);
    assert FirstCountMatch(s, |x| + 1) == Some(|x| + 1);
    FirstWhereSkips(MatchStarts(s), 0, |x| + 1, |s|);
  }

  /**
   * Only one `.digits` group is captured: with two separators the match
   * starts after the first one, and the leading group is lost.
   */
  lemma OnlyOneSeparatorGroup(x: string, y: string, z: string)
    requires AllDigits(x) && AllDigits(y) && AllDigits(z)
    ensures ParseCount(x + "." + y + "." + z + " anuncios") == Some(DigitsValue(y + z))
  {
    TwoSeparatorsCapture(x, y, z);
    assert RemoveAll(y + "." + z, '.') == y + z by {
      RemoveAllConcat(y + ".", z, '.');
      RemoveAllConcat(y, ".", '.');
      DigitsHaveNoDot(y);
      DigitsHaveNoDot(z);
      assert RemoveAll(".", '.') == [];
    }
  }

  /** `/\d+\s*anuncios/i` matches at `p` (plural required, no fraction). */
  predicate PluralMentionAt(s: string, p: nat) {
    p < |s| && IsDigit(s[p]) && WordAt(s, SpaceRunEnd(s, DigitRunEnd(s, p)), "anuncios")
  }

  /** `/\d+\s*anuncios/i.test(s)`: the test the page-wide search applies to each element. */
  predicate MentionsAnuncios(s: string) {
    exists p | 0 <= p < |s| :: PluralMentionAt(s, p)
  }

  /** A string of digits followed by " anuncios" is a mention from its first character. */
  lemma DigitsMention(d: string)
    requires AllDigits(d)
    ensures PluralMentionAt(d + " anuncios", 0)
  {
    var tail := " anuncios";
    var s := d + tail;
    var e := |d|;
    assert s[e..] == tail;
    assert s[e] == ' ' && s[e + 1] == 'a' by {
      assert s[e] == tail[0] && s[e + 1] == tail[1];
    }
    assert DigitRunEnd(s, 0) == e by {
      assert forall i | 0 <= i < e :: s[i] == d[i];
      DigitRunEndAt(s, 0, e);
    }
    assert SpaceRunEnd(s, e) == e + 1;
    assert WordAt(s, e + 1, "anuncios") by {
      AnunciosLower();
      assert s[e + 1..e + 9] == tail[1..];
      WordOccurs(s, e + 1, "anuncios");
    }
  }

  /** A text the page-wide search accepts always yields a count. */
  lemma MentionYieldsCount(s: string)
    requires MentionsAnuncios(s)
    ensures ParseCount(s).Some?
  {
    var p :| 0 <= p < |s| && PluralMentionAt(s, p);
    PluralMentionMatches(s, p);
    CountCaptureOfMatch(s);
  }

  /** Where the page-wide test matches, the count pattern matches too. */
  lemma PluralMentionMatches(s: string, p: nat)
    requires PluralMentionAt(s, p)
    ensures CountMatchAt(s, p).Some?
  {
    var e1 := DigitRunEnd(s, p);
    var w := SpaceRunEnd(s, e1);
    NumeralStopsAtMention(s, p);
    assert NumeralEnd(s, p) == e1;
    SingularPrefix(s, w);
  }

  /** The digits of a mention are followed by white space or the word, never by a '.'. */
  lemma NumeralStopsAtMention(s: string, p: nat)
    requires PluralMentionAt(s, p)
    ensures DigitRunEnd(s, p) < |s| && s[DigitRunEnd(s, p)] != '.'
  {
    var e1 := DigitRunEnd(s, p);
    var w := SpaceRunEnd(s, e1);
    assert w < |s|;
    if e1 == w {
      assert Lower(s[w + 0]) == "anuncios"[0];
    } else {
      assert IsSpace(s[e1]);
    }
  }

  /** "anuncios" spelt at `w` spells "anuncio" there too. */
  lemma SingularPrefix(s: string, w: nat)
    requires WordAt(s, w, "anuncios")
    ensures WordAt(s, w, "anuncio")
  {
    forall i | 0 <= i < 7 ensures Lower(s[w + i]) == "anuncio"[i] {
      assert "anuncio"[i] == "anuncios"[i];
    }
  }
}
