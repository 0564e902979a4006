/**
 * The elapsed-time label of the sample activity: `formatTimeUnit` turns the
 * number of milliseconds the recorder reports into a `MM:SS:mmm` string,
 * minutes padded to at least two digits, seconds to two, milliseconds to three.
 *
 * The elapsed time is never negative, so it is a `nat` here; Kotlin's `/` and `%`
 * agree with Dafny's on non-negative operands. Digits are the ASCII digits.
 */
module TimeFormat {
  import opened Wrappers

  const MillisPerSecond: nat := 1000
  const SecondsPerMinute: nat := 60
  const MillisPerMinute: nat := 60000

  /** The text the activity shows when formatting throws. */
  const Fallback: string := "00:00:000"

  // ---------------------------------------------------------------------------
  // The three numeric fields
  // ---------------------------------------------------------------------------

  /** `TimeUnit.MILLISECONDS.toMinutes`: whole minutes, truncated. */
  function Minutes(ms: nat): nat
  {
    ms / MillisPerMinute
  }

  /** `TimeUnit.MILLISECONDS.toSeconds`: whole seconds, truncated. */
  function WholeSeconds(ms: nat): nat
  {
    ms / MillisPerSecond
  }

  /** Whole seconds since a whole number of minutes: the whole seconds less
      `TimeUnit.MINUTES.toSeconds` of the whole minutes. */
  function Seconds(ms: nat): (s: nat)
    ensures s < SecondsPerMinute
    ensures s == WholeSeconds(ms) % SecondsPerMinute
  {
    MinutesOfSeconds(ms);
    WholeSeconds(ms) - SecondsPerMinute * Minutes(ms)
  }

  /** The elapsed time a minutes, seconds and milliseconds triple stands for. */
  function Compose(m: nat, s: nat, f: nat): nat
  {
    m * 60000 + s * 1000 + f
  }

  /** `timeInMilliseconds % 1000`. */
  function Millis(ms: nat): nat
  {
    ms % MillisPerSecond
  }

  /** Division by a positive constant has a unique quotient. */
  lemma QuotientUnique(n: nat, d: nat, q: nat, r: nat)
    requires 0 < d && r < d && n == d * q + r
    ensures n / d == q && n % d == r
  {
    var q0, r0 := n / d, n % d;
    assert d * q + r == d * q0 + r0;
    if q > q0 {
      MulAtLeast(d, q - q0);
    } else if q < q0 {
      MulAtLeast(d, q0 - q);
    }
  }

  lemma {:induction false} MulAtLeast(d: nat, k: nat)
    requires k >= 1
    ensures d * k >= d
  {
    if k > 1 {
      MulAtLeast(d, k - 1);
      assert d * k == d * (k - 1) + d;
    }
  }

  /** Truncating to minutes equals truncating the whole seconds to minutes. */
  lemma MinutesOfSeconds(ms: nat)
    ensures Minutes(ms) == WholeSeconds(ms) / SecondsPerMinute
  {
    var w := ms / 1000;
    var q, t := w / 60, w % 60;
    assert ms == 60000 * q + (1000 * t + ms % 1000);
    QuotientUnique(ms, 60000, q, 1000 * t + ms % 1000);
  }

  /** Minutes, seconds and milliseconds add back up to the elapsed time, and
      the seconds and milliseconds stay within their field ranges. */
  lemma Recompose(ms: nat)
    ensures Seconds(ms) < 60 && Millis(ms) < 1000
    ensures Compose(Minutes(ms), Seconds(ms), Millis(ms)) == ms
  {
    MinutesOfSeconds(ms);
    var w := ms / 1000;
    assert w == 60 * (w / 60) + w % 60;
    assert ms == 1000 * w + ms % 1000;
  }

  /** The decomposition is the only one with in-range seconds and milliseconds. */
  lemma DecompositionUnique(ms: nat, m: nat, s: nat, f: nat)
    requires s < 60 && f < 1000
    requires Compose(m, s, f) == ms
    ensures m == Minutes(ms) && s == Seconds(ms) && f == Millis(ms)
  {
    QuotientUnique(ms, 60000, m, s * 1000 + f);
    QuotientUnique(ms, 1000, 60 * m + s, f);
    QuotientUnique(ms / 1000, 60, m, s);
  }

  // ---------------------------------------------------------------------------
  // Decimal rendering, as `%d` with ASCII digits
  // ---------------------------------------------------------------------------

  predicate IsDigit(c: char)
  {
    '0' <= c <= '9'
  }

  predicate AllDigits(s: string)
  {
    forall i :: 0 <= i < |s| ==> IsDigit(s[i])
  }

  function DigitChar(d: nat): (c: char)
    requires d < 10
    ensures IsDigit(c) && DigitValue(c) == d
  {
    (48 + d) as char
  }

  function DigitValue(c: char): nat
    requires IsDigit(c)
  {
    c as int - 48
  }

  function Pow10(k: nat): (p: nat)
    ensures p >= 1
  {
    if k == 0 then 1 else 10 * Pow10(k - 1)
  }

  /** The shortest decimal rendering of `n`: "0" for zero, no leading zeros otherwise. */
  function Digits(n: nat): (s: string)
    ensures |s| >= 1 && AllDigits(s)
    ensures |s| > 1 ==> s[0] != '0'
  {
    if n < 10 then [DigitChar(n)] else Digits(n / 10) + [DigitChar(n % 10)]
  }

  /** The number a string of decimal digits denotes (leading zeros allowed). */
  function Value(s: string): nat
    requires AllDigits(s)
  {
    if s == [] then 0 else Value(s[..|s| - 1]) * 10 + DigitValue(s[|s| - 1])
  }

  function Zeros(k: nat): (s: string)
    ensures |s| == k && AllDigits(s)
  {
    if k == 0 then [] else Zeros(k - 1) + ['0']
  }

  /** `%0wd`: the decimal rendering of `n` left-padded with zeros to at least `w` characters. */
  function Field(n: nat, w: nat): string
  {
    var d := Digits(n);
    if |d| >= w then d else Zeros(w - |d|) + d
  }

  lemma {:induction false} ValueOfDigits(n: nat)
    ensures Value(Digits(n)) == n
  {
    if n >= 10 {
      var d := Digits(n / 10);
      assert (d + [DigitChar(n % 10)])[..|d|] == d;
      ValueOfDigits(n / 10);
    }
  }

  lemma {:induction false} ValueOfZeros(k: nat)
    ensures Value(Zeros(k)) == 0
  {
    if k > 0 {
      assert Zeros(k)[..k - 1] == Zeros(k - 1);
      ValueOfZeros(k - 1);
    }
  }

  /** Leading zeros do not change the value. */
  lemma {:induction false} ValueIgnoresZeros(k: nat, s: string)
    requires AllDigits(s)
    ensures AllDigits(Zeros(k) + s) && Value(Zeros(k) + s) == Value(s)
  {
    var z := Zeros(k) + s;
    assert AllDigits(z) by {
      forall i | 0 <= i < |z| ensures IsDigit(z[i]) {
        if i < k { assert z[i] == Zeros(k)[i]; } else { assert z[i] == s[i - k]; }
      }
    }
    if s == [] {
      assert z == Zeros(k);
      ValueOfZeros(k);
    } else {
      var s' := s[..|s| - 1];
      assert z[..|z| - 1] == Zeros(k) + s';
      assert z[|z| - 1] == s[|s| - 1];
      ValueIgnoresZeros(k, s');
    }
  }

  /** `n` needs at most `k` digits exactly when it is below 10^k. */
  lemma {:induction false} DigitsLength(n: nat, k: nat)
    requires k >= 1
    ensures |Digits(n)| <= k <==> n < Pow10(k)
  {
    if n >= 10 {
      if k == 1 {
        assert |Digits(n)| == |Digits(n / 10)| + 1;
      } else {
        DigitsLength(n / 10, k - 1);
        var p := Pow10(k - 1);
        assert n / 10 < p <==> n < 10 * p;
      }
    }
  }

  /** A field holds only digits, denotes `n`, and is `w` wide unless `n` needs more digits. */
  lemma FieldProperties(n: nat, w: nat)
    ensures AllDigits(Field(n, w)) && Value(Field(n, w)) == n
    ensures |Field(n, w)| == if |Digits(n)| >= w then |Digits(n)| else w
  {
    ValueOfDigits(n);
    if |Digits(n)| < w {
      ValueIgnoresZeros(w - |Digits(n)|, Digits(n));
    }
  }

  /** A field of width `w >= 1` is exactly `w` wide when `n < 10^w`, and wider otherwise. */
  lemma FieldWidth(n: nat, w: nat)
    requires w >= 1
    ensures |Field(n, w)| >= w
    ensures |Field(n, w)| == w <==> n < Pow10(w)
  {
    DigitsLength(n, w);
  }

  // ---------------------------------------------------------------------------
  // formatTimeUnit and its inverse
  // ---------------------------------------------------------------------------

  /** `formatTimeUnit`: `"%02d:%02d:%03d"` of minutes, seconds and milliseconds. */
  function FormatTimeUnit(ms: nat): string
  {
    Field(Minutes(ms), 2) + ":" + Field(Seconds(ms), 2) + ":" + Field(Millis(ms), 3)
  }

  /** Reads a `M..M:SS:mmm` label back into milliseconds: at least one minute
      digit, exactly two second digits below 60, exactly three millisecond digits. */
  function ParseTime(t: string): (r: Option<nat>)
    ensures r.Some? ==> |t| >= 8 && t[|t| - 7] == ':' && t[|t| - 4] == ':'
  {
    if |t| < 8 then None
    else
      var m, s, f := t[..|t| - 7], t[|t| - 6..|t| - 4], t[|t| - 3..];
      if t[|t| - 7] == ':' && t[|t| - 4] == ':' && AllDigits(m) && AllDigits(s) && AllDigits(f)
         && Value(s) < 60
      then Some(Compose(Value(m), Value(s), Value(f)))
      else None
  }

  /** Where the three fields and the two colons sit in a label. */
  lemma SplitLabel(mf: string, sf: string, ff: string)
    requires |mf| >= 1 && |sf| == 2 && |ff| == 3
    ensures var r := mf + ":" + sf + ":" + ff;
      |r| == |mf| + 7 && r[|r| - 7] == ':' && r[|r| - 4] == ':'
      && r[..|r| - 7] == mf && r[|r| - 6..|r| - 4] == sf && r[|r| - 3..] == ff
  {
    var r := mf + ":" + sf + ":" + ff;
    assert r[..|r| - 7] == mf;
    assert r[|r| - 6..|r| - 4] == sf;
    assert r[|r| - 3..] == ff;
  }

  /** Parsing a label whose three fields and two colons sit where `ParseTime` looks
      adds the fields up. */
  lemma ParseFields(r: string, mf: string, sf: string, ff: string)
    requires |mf| >= 1 && |r| == |mf| + 7 && r[|r| - 7] == ':' && r[|r| - 4] == ':'
    requires r[..|r| - 7] == mf && r[|r| - 6..|r| - 4] == sf && r[|r| - 3..] == ff
    requires AllDigits(mf) && AllDigits(sf) && AllDigits(ff) && Value(sf) < 60
    ensures ParseTime(r) == Some(Compose(Value(mf), Value(sf), Value(ff)))
  {
  }

  /** Parsing a label assembled from well-formed fields adds the fields up. */
  lemma ParseLabel(mf: string, sf: string, ff: string)
    requires |mf| >= 1 && |sf| == 2 && |ff| == 3
    requires AllDigits(mf) && AllDigits(sf) && AllDigits(ff) && Value(sf) < 60
    ensures ParseTime(mf + ":" + sf + ":" + ff)
      == Some(Compose(Value(mf), Value(sf), Value(ff)))
  {
    SplitLabel(mf, sf, ff);
    ParseFields(mf + ":" + sf + ":" + ff, mf, sf, ff);
  }

  /** The three fields of the label of `ms`, with their widths and values. */
  lemma LabelFields(ms: nat)
    ensures var mf, sf, ff := Field(Minutes(ms), 2), Field(Seconds(ms), 2), Field(Millis(ms), 3);
      FormatTimeUnit(ms) == mf + ":" + sf + ":" + ff
      && |mf| >= 2 && |sf| == 2 && |ff| == 3
      && (|mf| == 2 <==> ms < 6000000)
      && AllDigits(mf) && AllDigits(sf) && AllDigits(ff)
      && Value(mf) == Minutes(ms) && Value(sf) == Seconds(ms) && Value(ff) == Millis(ms)
  {
    Recompose(ms);
    FieldProperties(Minutes(ms), 2);
    FieldProperties(Seconds(ms), 2);
    FieldProperties(Millis(ms), 3);
    FieldWidth(Minutes(ms), 2);
    FieldWidth(Seconds(ms), 2);
    FieldWidth(Millis(ms), 3);
    assert Minutes(ms) < 100 <==> ms < 6000000;
  }

  /** The label splits into a minutes field of at least two digits, a colon,
      exactly two second digits, a colon and exactly three millisecond digits;
      the minutes field is two wide exactly when fewer than 100 minutes have passed. */
  lemma FormatShape(ms: nat)
    ensures var r := FormatTimeUnit(ms);
      |r| >= 9 && r[|r| - 7] == ':' && r[|r| - 4] == ':'
      && AllDigits(r[..|r| - 7]) && AllDigits(r[|r| - 6..|r| - 4]) && AllDigits(r[|r| - 3..])
      && (|r| == 9 <==> ms < 6000000)
  {
    LabelFields(ms);
    SplitLabel(Field(Minutes(ms), 2), Field(Seconds(ms), 2), Field(Millis(ms), 3));
  }

  /** Parsing the label gives back the elapsed time. */
  lemma ParseFormat(ms: nat)
    ensures ParseTime(FormatTimeUnit(ms)) == Some(ms)
  {
    LabelFields(ms);
    ParseLabel(Field(Minutes(ms), 2), Field(Seconds(ms), 2), Field(Millis(ms), 3));
    Recompose(ms);
  }

  /** Different elapsed times never share a label. */
  lemma FormatInjective(a: nat, b: nat)
    requires FormatTimeUnit(a) == FormatTimeUnit(b)
    ensures a == b
  {
    ParseFormat(a);
    ParseFormat(b);
  }

  /** Zero renders as all zeros in both field widths. */
  lemma ZeroFields()
    ensures Field(0, 2) == "00" && Field(0, 3) == "000"
  {
    assert Digits(0) == ['0'];
    assert Zeros(1) == ['0'];
    assert Zeros(2) == ['0', '0'];
  }

  /** The text shown when formatting throws is the label of zero milliseconds. */
  lemma FallbackIsZero()
    ensures FormatTimeUnit(0) == Fallback
  {
    assert Minutes(0) == 0 && Seconds(0) == 0 && Millis(0) == 0;
    ZeroFields();
  }
}
