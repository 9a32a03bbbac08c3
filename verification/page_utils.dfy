/** Small helpers shared by the pages: route paths, clock display, truncation. */
module PageUtils {
  import opened Wrappers
  import opened Text

  /** The route of a page: a slash and the lower-cased page name. */
  function CreatePageUrl(pageName: string): (url: string)
    ensures |url| == |pageName| + 1 && url[0] == '/'
    ensures url[1..] == ToLower(pageName)
    ensures forall i :: 1 <= i < |url| ==> !('A' <= url[i] <= 'Z')
  {
    "/" + ToLower(pageName)
  }

  /** Lower-casing twice is lower-casing once. */
  lemma ToLowerIdempotent(s: string)
    ensures ToLower(ToLower(s)) == ToLower(s)
  {
  }

  /** Page names differing only in ASCII case share a route. */
  lemma PageUrlCaseInsensitive(pageName: string)
    ensures CreatePageUrl(ToLower(pageName)) == CreatePageUrl(pageName)
  {
    ToLowerIdempotent(pageName);
  }

  /** `s.padStart(width, fill)`. */
  function PadStart(s: string, width: nat, fill: char): (r: string)
    ensures |s| >= width ==> r == s
    ensures |s| < width ==> |r| == width && r[width - |s|..] == s
    ensures forall i :: 0 <= i < |r| - |s| ==> r[i] == fill
    decreases width - |s|
  {
    if |s| >= width then s else PadStart([fill] + s, width, fill)
  }

  /** `formatDuration` for a whole, non-negative number of seconds: minutes,
      a colon, and the seconds within the minute as two digits. The clock
      reads back as the seconds it shows, so the display loses nothing. */
  function FormatDuration(seconds: nat): (t: string)
    ensures ParseDuration(t) == Some(seconds)
    ensures |t| >= 4 && (t[0] == '0' ==> t[1] == ':')
  {
    var m := NatToString(seconds / 60);
    var p := PadStart(NatToString(seconds % 60), 2, '0');
    TwoDigits(seconds % 60);
    NatToStringRoundTrip(seconds / 60);
    NatToStringLeadingDigit(seconds / 60);
    ClockParts(m, p);
    assert m != [] && AllDigits(m) && DigitsValue(m) * 60 + DigitsValue(p) == seconds;
    m + ":" + p
  }

  predicate AllDigits(s: string) {
    forall i :: 0 <= i < |s| ==> IsDigit(s[i])
  }

  /** Reads an `m:ss` clock back into seconds: minutes without leading
      zeros, a colon, two digits below 60; None for anything else. */
  function ParseDuration(t: string): (r: Option<nat>)
  {
    var parts := Split(t, ':');
    if |parts| == 2 && parts[0] != [] && AllDigits(parts[0])
       && parts[0] == NatToString(DigitsValue(parts[0]))
       && |parts[1]| == 2 && AllDigits(parts[1]) && DigitsValue(parts[1]) < 60
    then Some(DigitsValue(parts[0]) * 60 + DigitsValue(parts[1]))
    else None
  }

  /** The two-digit seconds field reads back as the seconds. */
  lemma TwoDigits(n: nat)
    requires n < 60
    ensures var p := PadStart(NatToString(n), 2, '0');
      |p| == 2 && AllDigits(p) && DigitsValue(p) == n
  {
    var p := PadStart(NatToString(n), 2, '0');
    if n < 10 {
      assert p == ['0', DigitChar(n)];
      assert p[..1] == ['0'];
      assert DigitsValue(['0']) == DigitsValue([]) * 10 + 0;
    } else {
      assert p == NatToString(n);
      NatToStringRoundTrip(n);
    }
  }

  /** The clock is the only text that reads back as its seconds: together
      with FormatDuration's round trip, the displayed text is determined. */
  lemma ParseDurationUnique(t: string, seconds: nat)
    requires ParseDuration(t) == Some(seconds)
    ensures t == FormatDuration(seconds)
  {
    var parts := Split(t, ':');
    var a, b := parts[0], parts[1];
    JoinSplit(t, ':');
    assert parts[1..] == [b];
    assert t == a + ":" + b;
    var ma, sb := DigitsValue(a), DigitsValue(b);
    assert ma == seconds / 60 && sb == seconds % 60;
    TwoDigits(sb);
    TwoDigitsEqual(b, PadStart(NatToString(sb), 2, '0'));
  }

  /** Two two-digit strings with the same value are the same string. */
  lemma TwoDigitsEqual(x: string, y: string)
    requires |x| == 2 && AllDigits(x) && |y| == 2 && AllDigits(y)
    requires DigitsValue(x) == DigitsValue(y)
    ensures x == y
  {
    assert DigitsValue(x[..1]) == x[0] as int - '0' as int by {
      assert x[..1][..0] == [];
    }
    assert DigitsValue(y[..1]) == y[0] as int - '0' as int by {
      assert y[..1][..0] == [];
    }
    assert x[0] == y[0] && x[1] == y[1];
  }

  /** A clock with one colon splits there into its two fields. */
  lemma ClockParts(m: string, p: string)
    requires ':' !in m && ':' !in p
    ensures Split(m + ":" + p, ':') == [m, p]
  {
    assert [m, p][1..] == [p];
    assert Join([m, p], ':') == m + [':'] + Join([p], ':');
    assert Join([m, p], ':') == m + ":" + p;
    SplitJoin([m, p], ':');
  }

  /** `truncateText`: the text itself when it fits, otherwise its first
      maxLength characters, trimmed, followed by "...". */
  function TruncateText(text: string, maxLength: int): (r: string)
    ensures |text| <= maxLength ==> r == text
    ensures |text| > maxLength ==>
      && EndsWith(r, "...")
      && (maxLength >= 0 ==> |r| <= maxLength + 3)
      && r[..|r| - 3] == Trim(Slice(text, 0, maxLength))
  {
    if |text| <= maxLength then text else Trim(Slice(text, 0, maxLength)) + "..."
  }

  /** A truncated text's body is a stretch of the original with only blanks cut from its ends. */
  lemma TruncatedIsExcerpt(text: string, maxLength: nat)
    requires |text| > maxLength
    ensures var body := TruncateText(text, maxLength)[..|TruncateText(text, maxLength)| - 3];
      exists a, b :: 0 <= a <= b <= maxLength && body == text[a..b]
  {
    assert Slice(text, 0, maxLength) == text[..maxLength];
    var a, b := TrimmedPrefixBounds(text, maxLength);
  }

  /** Trimming the first n characters leaves the stretch between two positions up to n. */
  lemma TrimmedPrefixBounds(text: string, n: nat) returns (a: nat, b: nat)
    requires n <= |text|
    ensures a <= b <= n && Trim(text[..n]) == text[a..b]
  {
    var cut := text[..n];
    a, b := TrimBounds(cut);
    assert cut[a..b] == text[a..b];
  }
}
