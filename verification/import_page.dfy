/**
 * PDF import: the clean-up passes applied to the extracted text (page
 * numbers, short header lines, runs of blank lines, blanks), the settings
 * that switch them, the PDF-only file check, and the book record created.
 * Text extraction itself is outside the model: the extracted text is an input.
 */
module ImportPage {
  import opened Wrappers
  import opened Seqs
  import opened Text
  import opened Records
  import opened BookStore

  // ---------------------------------------------------------------- header removal

  /** A line survives header removal when, trimmed, it is longer than 50 characters or empty. */
  predicate KeepLine(line: string) {
    |Trim(line)| > 50 || |Trim(line)| == 0
  }

  /** Drops the short non-blank lines, keeping the others in order: the
      lines of the result are exactly the kept lines, and when no line is
      kept the result is empty. */
  function RemoveHeaders(s: string): (r: string)
    ensures Filter(Split(s, '\n'), KeepLine) == [] ==> r == ""
    ensures Filter(Split(s, '\n'), KeepLine) != [] ==>
      && Split(r, '\n') == Filter(Split(s, '\n'), KeepLine)
      && forall line :: line in Split(r, '\n') <==> line in Split(s, '\n') && KeepLine(line)
  {
    var kept := Filter(Split(s, '\n'), KeepLine);
    LinesHaveNoBreak(Split(s, '\n'), kept);
    if kept != [] then SplitJoin(kept, '\n'); Join(kept, '\n') else Join(kept, '\n')
  }

  /** Lines taken from a split contain no newline. */
  lemma LinesHaveNoBreak(lines: seq<string>, kept: seq<string>)
    requires forall i :: 0 <= i < |lines| ==> '\n' !in lines[i]
    requires forall x :: x in kept ==> x in lines
    ensures forall i :: 0 <= i < |kept| ==> '\n' !in kept[i]
  {
    forall i | 0 <= i < |kept| ensures '\n' !in kept[i] {
      assert kept[i] in lines;
    }
  }

  /** A text made only of long or blank lines passes unchanged. */
  lemma RemoveHeadersKeepsBody(s: string)
    requires forall line :: line in Split(s, '\n') ==> KeepLine(line)
    ensures RemoveHeaders(s) == s
  {
    JoinSplit(s, '\n');
  }

  // ---------------------------------------------------------------- blank-line collapse

  /** Number of copies of c that s starts with. */
  function LeadingRun(s: string, c: char): (n: nat)
    ensures n <= |s|
    ensures forall i :: 0 <= i < n ==> s[i] == c
    ensures n < |s| ==> s[n] != c
  {
    if s == [] || s[0] != c then 0 else 1 + LeadingRun(s[1..], c)
  }

  /** `s.replace(/\n{3,}/g, '\n\n')`: every maximal run of three or more
      newlines becomes exactly two. */
  function CollapseNewlines(s: string): (r: string)
    ensures |r| <= |s|
    decreases |s|
  {
    if s == [] then []
    else
      var n := LeadingRun(s, '\n');
      if n >= 3 then "\n\n" + CollapseNewlines(s[n..])
      else if n > 0 then s[..n] + CollapseNewlines(s[n..])
      else [s[0]] + CollapseNewlines(s[1..])
  }

  predicate NoTripleNewline(s: string) {
    forall i :: 0 <= i && i + 2 < |s| ==> !(s[i] == '\n' && s[i + 1] == '\n' && s[i + 2] == '\n')
  }

  /** After the collapse no three newlines follow each other, and a text not
      starting with a newline keeps its first character. */
  lemma {:induction false} CollapseNewlinesSpec(s: string)
    ensures NoTripleNewline(CollapseNewlines(s))
    ensures s != [] && s[0] != '\n' ==> CollapseNewlines(s) != [] && CollapseNewlines(s)[0] == s[0]
    decreases |s|
  {
    if s != [] {
      var n := LeadingRun(s, '\n');
      var r := CollapseNewlines(s);
      if n > 0 {
        var rest := s[n..];
        CollapseNewlinesSpec(rest);
        var tail := CollapseNewlines(rest);
        var head := if n >= 3 then "\n\n" else s[..n];
        assert |head| <= 2;
        assert r == head + tail;
        assert tail != [] ==> tail[0] != '\n';
        forall i | 0 <= i && i + 2 < |r|
          ensures !(r[i] == '\n' && r[i + 1] == '\n' && r[i + 2] == '\n')
        {
          if i >= |head| {
            assert r[i] == tail[i - |head|] && r[i + 1] == tail[i + 1 - |head|] && r[i + 2] == tail[i + 2 - |head|];
          } else if i + 1 == |head| {
            assert r[i + 1] == tail[0];
          } else {
            assert r[i + 2] == tail[2 - |head| + i];
          }
        }
      } else {
        CollapseNewlinesSpec(s[1..]);
        var tail := CollapseNewlines(s[1..]);
        assert r == [s[0]] + tail;
        forall i | 0 <= i && i + 2 < |r|
          ensures !(r[i] == '\n' && r[i + 1] == '\n' && r[i + 2] == '\n')
        {
          if i >= 1 {
            assert r[i] == tail[i - 1] && r[i + 1] == tail[i] && r[i + 2] == tail[i + 1];
          }
        }
      }
    }
  }

  /** A suffix of a text without three newlines in a row has none either. */
  lemma NoTripleSuffix(s: string, k: nat)
    requires NoTripleNewline(s) && k <= |s|
    ensures NoTripleNewline(s[k..])
  {
    forall i | 0 <= i && i + 2 < |s[k..]|
      ensures !(s[k..][i] == '\n' && s[k..][i + 1] == '\n' && s[k..][i + 2] == '\n')
    {
      assert s[k..][i] == s[k + i] && s[k..][i + 1] == s[k + i + 1] && s[k..][i + 2] == s[k + i + 2];
    }
  }

  /** A text without three newlines in a row passes unchanged. */
  lemma {:induction false} CollapseNewlinesKeepsShortRuns(s: string)
    requires NoTripleNewline(s)
    ensures CollapseNewlines(s) == s
    decreases |s|
  {
    if s != [] {
      ShortLeadingRun(s);
      var k := CollapseShortRunStep(s);
      NoTripleSuffix(s, k);
      CollapseNewlinesKeepsShortRuns(s[k..]);
      assert s == s[..k] + s[k..];
    }
  }

  /** A text without three newlines in a row starts with at most two. */
  lemma ShortLeadingRun(s: string)
    requires NoTripleNewline(s)
    ensures LeadingRun(s, '\n') < 3
  {
    if |s| >= 3 {
      assert !(s[0] == '\n' && s[1] == '\n' && s[2] == '\n');
    }
  }

  /** A leading run of fewer than three newlines (or one other character) is copied as it is. */
  lemma CollapseShortRunStep(s: string) returns (k: nat)
    requires s != [] && LeadingRun(s, '\n') < 3
    ensures 1 <= k <= |s| && CollapseNewlines(s) == s[..k] + CollapseNewlines(s[k..])
  {
    var n := LeadingRun(s, '\n');
    k := if n > 0 then n else 1;
    assert n == 0 ==> s[..1] == [s[0]];
  }

  // ---------------------------------------------------------------- whitespace normalisation

  predicate IsBlank(c: char) { c == ' ' || c == '\t' }

  predicate NoTab(s: string) { forall i :: 0 <= i < |s| ==> s[i] != '\t' }

  predicate NoDoubleSpace(s: string) {
    forall i :: 0 <= i && i + 1 < |s| ==> !(s[i] == ' ' && s[i + 1] == ' ')
  }

  /** No space directly after a line terminator. */
  predicate NoSpaceAfterBreak(s: string) {
    forall i :: 0 <= i && i + 1 < |s| && IsLineTerminator(s[i]) ==> s[i + 1] != ' '
  }

  /** No space directly before a line terminator. */
  predicate NoSpaceBeforeBreak(s: string) {
    forall i :: 0 <= i && i + 1 < |s| && IsLineTerminator(s[i + 1]) ==> s[i] != ' '
  }

  /** No line of s begins or ends with a space, the text's own ends included. */
  predicate LinesTrimmedOfSpaces(s: string) {
    (s != [] ==> s[0] != ' ' && s[|s| - 1] != ' ') && NoSpaceAfterBreak(s) && NoSpaceBeforeBreak(s)
  }

  function LeadingBlanks(s: string): (n: nat)
    ensures n <= |s|
    ensures forall i :: 0 <= i < n ==> IsBlank(s[i])
    ensures n < |s| ==> !IsBlank(s[n])
  {
    if s == [] || !IsBlank(s[0]) then 0 else 1 + LeadingBlanks(s[1..])
  }

  /** `replace(/[ \t]+/g, ' ')`: every maximal run of spaces and tabs becomes one space. */
  function SqueezeBlanks(s: string): (r: string)
    ensures |r| <= |s|
    decreases |s|
  {
    if s == [] then []
    else if IsBlank(s[0]) then " " + SqueezeBlanks(s[LeadingBlanks(s)..])
    else [s[0]] + SqueezeBlanks(s[1..])
  }

  /** `replace(/^ +/gm, '')`: spaces at the start of the text or right after a
      line terminator are dropped; `atStart` says whether s begins a line. */
  function StripLineStarts(s: string, atStart: bool): (r: string)
    ensures |r| <= |s|
    decreases |s|
  {
    if s == [] then []
    else if atStart && s[0] == ' ' then StripLineStarts(s[1..], true)
    else [s[0]] + StripLineStarts(s[1..], IsLineTerminator(s[0]))
  }

  /** `replace(/ +$/gm, '')`: a run of spaces is dropped when a line
      terminator or the end of the text follows it. */
  function StripLineEnds(s: string): (r: string)
    ensures |r| <= |s|
    decreases |s|
  {
    if s == [] then []
    else if s[0] == ' ' then
      var n := LeadingRun(s, ' ');
      if n == |s| || IsLineTerminator(s[n]) then StripLineEnds(s[n..])
      else s[..n] + StripLineEnds(s[n..])
    else [s[0]] + StripLineEnds(s[1..])
  }

  /** The three substitutions of the normalise-whitespace setting, in order.
      Afterwards there is no tab, no two spaces in a row, and no line begins
      or ends with a space. */
  function NormalizeWhitespace(s: string): (r: string)
    ensures NoTab(r) && NoDoubleSpace(r) && LinesTrimmedOfSpaces(r)
  {
    var a := SqueezeBlanks(s);
    SqueezeBlanksSpec(s);
    var b := StripLineStarts(a, true);
    StripLineStartsSpec(a, true);
    StripLineEndsSpec(b);
    StripLineEnds(b)
  }

  lemma {:induction false} SqueezeBlanksSpec(s: string)
    ensures NoTab(SqueezeBlanks(s)) && NoDoubleSpace(SqueezeBlanks(s))
    ensures s != [] ==> SqueezeBlanks(s) != [] && (IsBlank(s[0]) <==> SqueezeBlanks(s)[0] == ' ')
    decreases |s|
  {
    if s != [] {
      var r := SqueezeBlanks(s);
      if IsBlank(s[0]) {
        var n := LeadingBlanks(s);
        SqueezeBlanksSpec(s[n..]);
        var rest := SqueezeBlanks(s[n..]);
        assert r == " " + rest;
        assert rest != [] ==> rest[0] != ' ';
        forall i | 0 <= i && i + 1 < |r| ensures !(r[i] == ' ' && r[i + 1] == ' ') {
          if i >= 1 { assert r[i] == rest[i - 1] && r[i + 1] == rest[i]; }
        }
      } else {
        SqueezeBlanksSpec(s[1..]);
        var rest := SqueezeBlanks(s[1..]);
        assert r == [s[0]] + rest;
        forall i | 0 <= i && i + 1 < |r| ensures !(r[i] == ' ' && r[i + 1] == ' ') {
          if i >= 1 { assert r[i] == rest[i - 1] && r[i + 1] == rest[i]; }
        }
      }
    }
  }

  /** Squeezing leaves text without tabs or double spaces as it is, so squeezing twice is squeezing once. */
  lemma {:induction false} SqueezeFixesSqueezed(s: string)
    requires NoTab(s) && NoDoubleSpace(s)
    ensures SqueezeBlanks(s) == s
    decreases |s|
  {
    if s != [] {
      var rest := s[1..];
      assert NoTab(rest) && NoDoubleSpace(rest) by {
        forall i | 0 <= i < |rest| ensures rest[i] == s[i + 1] { }
      }
      if IsBlank(s[0]) {
        assert LeadingBlanks(s) == 1 by {
          assert |s| > 1 ==> s[1] != ' ' && s[1] != '\t';
          assert LeadingBlanks(s) == 1 + LeadingBlanks(rest);
        }
      }
      SqueezeFixesSqueezed(rest);
      assert s == [s[0]] + rest;
    }
  }

  /** Squeezing is idempotent. */
  lemma SqueezeIdempotent(s: string)
    ensures SqueezeBlanks(SqueezeBlanks(s)) == SqueezeBlanks(s)
  {
    SqueezeBlanksSpec(s);
    SqueezeFixesSqueezed(SqueezeBlanks(s));
  }

  /** The properties this section tracks survive dropping a prefix. */
  lemma SuffixKeeps(s: string, k: nat)
    requires k <= |s|
    ensures NoTab(s) ==> NoTab(s[k..])
    ensures NoDoubleSpace(s) ==> NoDoubleSpace(s[k..])
    ensures NoSpaceAfterBreak(s) ==> NoSpaceAfterBreak(s[k..])
  {
    var t := s[k..];
    assert forall i :: 0 <= i < |t| ==> t[i] == s[k + i];
  }

  lemma {:induction false} StripLineStartsSpec(s: string, atStart: bool)
    requires NoTab(s) && NoDoubleSpace(s)
    ensures NoTab(StripLineStarts(s, atStart)) && NoDoubleSpace(StripLineStarts(s, atStart))
    ensures NoSpaceAfterBreak(StripLineStarts(s, atStart))
    ensures atStart && StripLineStarts(s, atStart) != [] ==> StripLineStarts(s, atStart)[0] != ' '
    ensures s != [] && (!atStart || s[0] != ' ') ==>
      StripLineStarts(s, atStart) != [] && StripLineStarts(s, atStart)[0] == s[0]
    decreases |s|
  {
    if s != [] {
      SuffixKeeps(s, 1);
      var r := StripLineStarts(s, atStart);
      if atStart && s[0] == ' ' {
        StripLineStartsSpec(s[1..], true);
      } else {
        var next := IsLineTerminator(s[0]);
        StripLineStartsSpec(s[1..], next);
        var rest := StripLineStarts(s[1..], next);
        assert r == [s[0]] + rest;
        if |s| > 1 && s[0] == ' ' {
          assert s[1] != ' ';
        }
        forall i | 0 <= i && i + 1 < |r| ensures !(r[i] == ' ' && r[i + 1] == ' ') {
          if i >= 1 { assert r[i] == rest[i - 1] && r[i + 1] == rest[i]; }
        }
        forall i | 0 <= i && i + 1 < |r| && IsLineTerminator(r[i]) ensures r[i + 1] != ' ' {
          if i >= 1 { assert r[i] == rest[i - 1] && r[i + 1] == rest[i]; }
        }
        forall i | 0 <= i < |r| ensures r[i] != '\t' {
          if i >= 1 { assert r[i] == rest[i - 1]; }
        }
      }
    }
  }

  lemma {:induction false} StripLineEndsSpec(s: string)
    requires NoTab(s) && NoDoubleSpace(s) && NoSpaceAfterBreak(s)
    ensures NoTab(StripLineEnds(s)) && NoDoubleSpace(StripLineEnds(s))
    ensures NoSpaceAfterBreak(StripLineEnds(s)) && NoSpaceBeforeBreak(StripLineEnds(s))
    ensures StripLineEnds(s) != [] ==> StripLineEnds(s)[|StripLineEnds(s)| - 1] != ' '
    ensures s != [] && s[0] != ' ' ==> StripLineEnds(s) != [] && StripLineEnds(s)[0] == s[0]
    decreases |s|
  {
    if s != [] {
      var r := StripLineEnds(s);
      if s[0] == ' ' {
        var n := LeadingRun(s, ' ');
        SuffixKeeps(s, n);
        StripLineEndsSpec(s[n..]);
        if !(n == |s| || IsLineTerminator(s[n])) {
          var rest := StripLineEnds(s[n..]);
          assert n == 1;
          assert r == [s[0]] + rest;
          assert rest != [] && rest[0] == s[1];
          ConsClean(s[0], rest);
        }
      } else {
        SuffixKeeps(s, 1);
        StripLineEndsSpec(s[1..]);
        var rest := StripLineEnds(s[1..]);
        assert r == [s[0]] + rest;
        if |s| > 1 && IsLineTerminator(s[0]) {
          assert s[1] != ' ';
        }
        ConsClean(s[0], rest);
      }
    }
  }

  /** Putting one character in front of a clean text keeps it clean when the
      character fits with the text's first one. */
  lemma ConsClean(c: char, rest: string)
    requires NoTab(rest) && NoDoubleSpace(rest) && NoSpaceAfterBreak(rest) && NoSpaceBeforeBreak(rest)
    requires rest != [] ==> rest[|rest| - 1] != ' '
    requires c != '\t'
    requires rest != [] && (c == ' ' || IsLineTerminator(c)) ==> rest[0] != ' '
    requires rest != [] && IsLineTerminator(rest[0]) ==> c != ' '
    requires rest == [] ==> c != ' '
    ensures var r := [c] + rest;
      NoTab(r) && NoDoubleSpace(r) && NoSpaceAfterBreak(r) && NoSpaceBeforeBreak(r) && r[|r| - 1] != ' '
  {
    var r := [c] + rest;
    forall i | 0 <= i && i + 1 < |r| ensures !(r[i] == ' ' && r[i + 1] == ' ') {
      if i >= 1 { assert r[i] == rest[i - 1] && r[i + 1] == rest[i]; }
    }
    forall i | 0 <= i && i + 1 < |r| && IsLineTerminator(r[i]) ensures r[i + 1] != ' ' {
      if i >= 1 { assert r[i] == rest[i - 1] && r[i + 1] == rest[i]; }
    }
    forall i | 0 <= i && i + 1 < |r| && IsLineTerminator(r[i + 1]) ensures r[i] != ' ' {
      if i >= 1 { assert r[i] == rest[i - 1] && r[i + 1] == rest[i]; }
    }
    forall i | 0 <= i < |r| ensures r[i] != '\t' {
      if i >= 1 { assert r[i] == rest[i - 1]; }
    }
    if rest != [] { assert r[|r| - 1] == rest[|rest| - 1]; }
  }

  /** The properties of this section hold of every piece cut out of a text that has them. */
  lemma SliceKeeps(s: string, a: nat, b: nat)
    requires a <= b <= |s|
    ensures NoTab(s) ==> NoTab(s[a..b])
    ensures NoDoubleSpace(s) ==> NoDoubleSpace(s[a..b])
    ensures NoSpaceAfterBreak(s) ==> NoSpaceAfterBreak(s[a..b])
    ensures NoSpaceBeforeBreak(s) ==> NoSpaceBeforeBreak(s[a..b])
    ensures NoTripleNewline(s) ==> NoTripleNewline(s[a..b])
  {
    var t := s[a..b];
    assert forall i :: 0 <= i < |t| ==> t[i] == s[a + i];
  }

  // ---------------------------------------------------------------- settings

  datatype ImportSettings = ImportSettings(
    removePageNumbers: bool,
    removeHeaders: bool,
    removeFooters: bool,
    removeEmptyLines: bool,
    normalizeWhitespace: bool)

  /** Page numbers are removed by default; every other pass is off. */
  const DefaultSettings := ImportSettings(true, false, false, false, false)

  datatype SettingKey = PageNumbersFlag | HeadersFlag | FootersFlag | EmptyLinesFlag | WhitespaceFlag

  function Flag(settings: ImportSettings, key: SettingKey): bool {
    match key
    case PageNumbersFlag => settings.removePageNumbers
    case HeadersFlag => settings.removeHeaders
    case FootersFlag => settings.removeFooters
    case EmptyLinesFlag => settings.removeEmptyLines
    case WhitespaceFlag => settings.normalizeWhitespace
  }

  /** Flips the named flag and only that one. */
  function ToggleSetting(settings: ImportSettings, key: SettingKey): (r: ImportSettings)
    ensures Flag(r, key) == !Flag(settings, key)
    ensures forall other :: other != key ==> Flag(r, other) == Flag(settings, other)
  {
    match key
    case PageNumbersFlag => settings.(removePageNumbers := !settings.removePageNumbers)
    case HeadersFlag => settings.(removeHeaders := !settings.removeHeaders)
    case FootersFlag => settings.(removeFooters := !settings.removeFooters)
    case EmptyLinesFlag => settings.(removeEmptyLines := !settings.removeEmptyLines)
    case WhitespaceFlag => settings.(normalizeWhitespace := !settings.normalizeWhitespace)
  }

  /** Settings are equal exactly when every flag is. */
  lemma SettingsByFlags(a: ImportSettings, b: ImportSettings)
    requires forall key :: Flag(a, key) == Flag(b, key)
    ensures a == b
  {
    assert Flag(a, PageNumbersFlag) == Flag(b, PageNumbersFlag);
    assert Flag(a, HeadersFlag) == Flag(b, HeadersFlag);
    assert Flag(a, FootersFlag) == Flag(b, FootersFlag);
    assert Flag(a, EmptyLinesFlag) == Flag(b, EmptyLinesFlag);
    assert Flag(a, WhitespaceFlag) == Flag(b, WhitespaceFlag);
  }

  /** Toggling the same flag twice restores the settings. */
  lemma ToggleTwice(settings: ImportSettings, key: SettingKey)
    ensures ToggleSetting(ToggleSetting(settings, key), key) == settings
  {
    var once := ToggleSetting(settings, key);
    var twice := ToggleSetting(once, key);
    forall other ensures Flag(twice, other) == Flag(settings, other) {
      if other == key {
        assert Flag(twice, key) == !Flag(once, key);
      } else {
        assert Flag(twice, other) == Flag(once, other) == Flag(settings, other);
      }
    }
    SettingsByFlags(twice, settings);
  }

  /** The settings as the JSON object stored with the book. */
  function SettingsValue(settings: ImportSettings): (v: Value)
    ensures v.Obj? && v.fields.Keys == {"removePageNumbers", "removeHeaders", "removeFooters", "removeEmptyLines", "normalizeWhitespace"}
  {
    Obj(map[
      "removePageNumbers" := Bool(settings.removePageNumbers),
      "removeHeaders" := Bool(settings.removeHeaders),
      "removeFooters" := Bool(settings.removeFooters),
      "removeEmptyLines" := Bool(settings.removeEmptyLines),
      "normalizeWhitespace" := Bool(settings.normalizeWhitespace)])
  }

  // ---------------------------------------------------------------- the pipeline

  /** The passes in their fixed order: page numbers, headers, blank lines,
      whitespace, then a final trim. `pageNumbers` stands for the three
      page-number substitutions; removeFooters switches nothing. */
  function ApplyImportSettings(settings: ImportSettings, pageNumbers: string -> string, text: string): (r: string)
    ensures IsTrimmed(r)
  {
    var afterPages := if settings.removePageNumbers then pageNumbers(text) else text;
    var afterHeaders := if settings.removeHeaders then RemoveHeaders(afterPages) else afterPages;
    var afterBlankLines := if settings.removeEmptyLines then CollapseNewlines(afterHeaders) else afterHeaders;
    var afterWhitespace := if settings.normalizeWhitespace then NormalizeWhitespace(afterBlankLines) else afterBlankLines;
    Trim(afterWhitespace)
  }

  /** With every pass off the import only trims the text. */
  lemma AllOffOnlyTrims(pageNumbers: string -> string, text: string)
    ensures ApplyImportSettings(ImportSettings(false, false, false, false, false), pageNumbers, text) == Trim(text)
  {
  }

  /** The result is already trimmed, so importing it again with every pass off changes nothing. */
  lemma ImportResultStable(settings: ImportSettings, pageNumbers: string -> string, text: string)
    ensures ApplyImportSettings(ImportSettings(false, false, false, false, false), pageNumbers,
                                ApplyImportSettings(settings, pageNumbers, text))
         == ApplyImportSettings(settings, pageNumbers, text)
  {
    TrimOfTrimmed(ApplyImportSettings(settings, pageNumbers, text));
  }

  /** The removeFooters flag has no effect on the result. */
  lemma FootersIgnored(settings: ImportSettings, pageNumbers: string -> string, text: string)
    ensures ApplyImportSettings(ToggleSetting(settings, FootersFlag), pageNumbers, text)
         == ApplyImportSettings(settings, pageNumbers, text)
  {
  }

  /** Trimming keeps every property of this section's passes. */
  lemma TrimKeeps(s: string)
    ensures NoTab(s) ==> NoTab(Trim(s))
    ensures NoDoubleSpace(s) ==> NoDoubleSpace(Trim(s))
    ensures NoSpaceAfterBreak(s) && NoSpaceBeforeBreak(s) ==> LinesTrimmedOfSpaces(Trim(s))
    ensures NoTripleNewline(s) ==> NoTripleNewline(Trim(s))
  {
    var a, b := TrimBounds(s);
    SliceKeeps(s, a, b);
  }

  /** With normaliseWhitespace on, the imported text has no tab, no two
      spaces in a row, and no line that begins or ends with a space. */
  lemma ImportNormalizedClean(settings: ImportSettings, pageNumbers: string -> string, text: string)
    requires settings.normalizeWhitespace
    ensures var r := ApplyImportSettings(settings, pageNumbers, text);
      NoTab(r) && NoDoubleSpace(r) && LinesTrimmedOfSpaces(r)
  {
    var afterPages := if settings.removePageNumbers then pageNumbers(text) else text;
    var afterHeaders := if settings.removeHeaders then RemoveHeaders(afterPages) else afterPages;
    var afterBlankLines := if settings.removeEmptyLines then CollapseNewlines(afterHeaders) else afterHeaders;
    TrimKeeps(NormalizeWhitespace(afterBlankLines));
  }

  /** With removeEmptyLines on and whitespace left alone, the imported text
      has no three newlines in a row. */
  lemma ImportCollapsedBlankLines(settings: ImportSettings, pageNumbers: string -> string, text: string)
    requires settings.removeEmptyLines && !settings.normalizeWhitespace
    ensures NoTripleNewline(ApplyImportSettings(settings, pageNumbers, text))
  {
    var afterPages := if settings.removePageNumbers then pageNumbers(text) else text;
    var afterHeaders := if settings.removeHeaders then RemoveHeaders(afterPages) else afterPages;
    CollapseNewlinesSpec(afterHeaders);
    TrimKeeps(CollapseNewlines(afterHeaders));
  }

  /** Blank-line collapsing runs before whitespace normalisation, so a line
      holding only a space, once emptied, can leave three newlines in a row. */
  lemma SpaceLineSurvivesCollapse(pageNumbers: string -> string)
    ensures ApplyImportSettings(ImportSettings(false, false, false, true, true), pageNumbers, "a\n\n \nb") == "a\n\n\nb"
  {
    var s := "a\n\n \nb";
    assert ApplyImportSettings(ImportSettings(false, false, false, true, true), pageNumbers, s)
        == Trim(NormalizeWhitespace(CollapseNewlines(s)));
    ExampleCollapsed();
    ExampleNormalized();
    ExampleTrimmed();
  }

  lemma ExampleTrimmed()
    ensures Trim("a\n\n\nb") == "a\n\n\nb"
  {
    var t := "a\n\n\nb";
    assert t[0] == 'a' && t[|t| - 1] == 'b';
    TrimOfTrimmed(t);
  }

  /** The newline runs have length 2 and 1, so the collapse changes nothing. */
  lemma ExampleCollapsed()
    ensures CollapseNewlines("a\n\n \nb") == "a\n\n \nb"
  {
    var s := "a\n\n \nb";
    assert NoTripleNewline(s) by {
      forall i | 0 <= i && i + 2 < |s| ensures !(s[i] == '\n' && s[i + 1] == '\n' && s[i + 2] == '\n') {
        assert i == 0 || i == 1 || i == 2 || i == 3;
      }
    }
    CollapseNewlinesKeepsShortRuns(s);
  }

  lemma ExampleNormalized()
    ensures NormalizeWhitespace("a\n\n \nb") == "a\n\n\nb"
  {
    ExampleSqueezed();
    ExampleStartsStripped();
    ExampleEndsStripped();
  }

  lemma ExampleSqueezed()
    ensures SqueezeBlanks("a\n\n \nb") == "a\n\n \nb"
  {
    var s := "a\n\n \nb";
    assert NoTab(s) && NoDoubleSpace(s) by {
      assert s[0] == 'a' && s[1] == '\n' && s[2] == '\n' && s[3] == ' ' && s[4] == '\n' && s[5] == 'b';
    }
    SqueezeFixesSqueezed(s);
  }

  lemma ExampleStartsStripped()
    ensures StripLineStarts("a\n\n \nb", true) == "a\n\n\nb"
  {
    var s := "a\n\n \nb";
    assert s[5..] == "b" && s[4..] == "\nb" && s[3..] == " \nb" && s[2..] == "\n \nb" && s[1..] == "\n\n \nb";
    assert StripLineStarts("b", true) == "b";
    assert StripLineStarts("\nb", false) == "\nb";
    assert StripLineStarts(" \nb", true) == "\nb";
    assert StripLineStarts("\n \nb", true) == "\n\nb";
    assert StripLineStarts(s[1..], false) == "\n\n\nb";
  }

  lemma ExampleEndsStripped()
    ensures StripLineEnds("a\n\n\nb") == "a\n\n\nb"
  {
    var t := "a\n\n\nb";
    assert t[1..] == "\n\n\nb" && t[2..] == "\n\nb" && t[3..] == "\nb" && t[4..] == "b";
    assert StripLineEnds("b") == "b";
    assert StripLineEnds("\nb") == "\nb";
    assert StripLineEnds("\n\nb") == "\n\nb";
    assert StripLineEnds("\n\n\nb") == "\n\n\nb";
  }

  // ---------------------------------------------------------------- the page

  /** The book title: the file name with its first ".pdf" removed. */
  function Title(fileName: string): (title: string)
    ensures |title| == |fileName| || |title| == |fileName| - 4
  {
    ReplaceFirst(fileName, ".pdf", "")
  }

  /** A name whose only ".pdf" is its extension loses exactly that extension. */
  lemma TitleDropsExtension(base: string)
    requires forall j: nat :: !StartsWithAt(base, ".pdf", j)
    ensures Title(base + ".pdf") == base
  {
    var name := base + ".pdf";
    assert StartsWithAt(name, ".pdf", |base|) by {
      assert name[|base|..|base| + 4] == ".pdf";
    }
    forall j: nat | j < |base| ensures !StartsWithAt(name, ".pdf", j) {
      if j + 4 <= |base| {
        assert name[j..j + 4] == base[j..j + 4];
        assert !StartsWithAt(base, ".pdf", j);
      } else {
        // such a window would overlap the extension, whose '.' matches no later letter of ".pdf"
        assert name[|base|] == '.';
        assert j + 4 <= |name| ==> name[j..j + 4][|base| - j] == name[|base|];
        assert 1 <= |base| - j <= 3 && ".pdf"[|base| - j] != '.';
      }
    }
    assert IndexOfString(name, ".pdf", 0) == |base|;
    assert name[..|base|] == base;
  }

  /** Only the first ".pdf" goes, wherever it is. */
  lemma TitleKeepsLaterPdf()
    ensures Title("a.pdf.pdf") == "a.pdf"
  {
    var name := "a.pdf.pdf";
    assert name[0..4] == "a.pd";
    assert StartsWithAt(name, ".pdf", 1) by { assert name[1..5] == ".pdf"; }
    assert IndexOfString(name, ".pdf", 0) == 1;
    assert name[..1] + "" + name[5..] == "a.pdf";
  }

  datatype FileInfo = FileInfo(name: string, mimeType: string)

  const PdfMimeType := "application/pdf"
  const NotPdfMessage := "Please select a PDF file"
  const ImportFailedMessage := "Failed to import PDF. Please try again."

  /** The object handed to the book store for a new book. */
  function BookData(file: FileInfo, settings: ImportSettings, text: string, rawText: string): (data: Record)
    ensures data.Keys == {"title", "fileName", "text", "originalText", "importSettings"}
    ensures data["title"] == Str(Title(file.name)) && data["fileName"] == Str(file.name)
    ensures data["text"] == Str(text) && data["originalText"] == Str(rawText)
  {
    map["title" := Str(Title(file.name)), "fileName" := Str(file.name), "text" := Str(text),
        "originalText" := Str(rawText), "importSettings" := SettingsValue(settings)]
  }

  /** The import screen: the chosen file, the error shown, and the settings. */
  class ImportScreen {
    var selectedFile: Option<FileInfo>
    var error: Option<string>
    var settings: ImportSettings

    constructor()
      ensures selectedFile == None && error == None && settings == DefaultSettings
    {
      selectedFile := None;
      error := None;
      settings := DefaultSettings;
    }

    /** A PDF becomes the selection and clears the error; any other file only
        sets the error; no file changes nothing. */
    method HandleFileSelect(file: Option<FileInfo>)
      modifies this
      ensures file.Some? && file.value.mimeType == PdfMimeType ==> selectedFile == file && error == None
      ensures file.Some? && file.value.mimeType != PdfMimeType ==>
        selectedFile == old(selectedFile) && error == Some(NotPdfMessage)
      ensures file.None? ==> selectedFile == old(selectedFile) && error == old(error)
      ensures settings == old(settings)
    {
      if file.Some? && file.value.mimeType == PdfMimeType {
        selectedFile := file;
        error := None;
      } else if file.Some? {
        error := Some(NotPdfMessage);
      }
    }

    method Toggle(key: SettingKey)
      modifies this
      ensures settings == ToggleSetting(old(settings), key)
      ensures selectedFile == old(selectedFile) && error == old(error)
    {
      settings := ToggleSetting(settings, key);
    }

    /** Imports the selected file. `extracted` is the text pulled from the
        PDF, None when extraction failed. On success one book is appended to
        the store with the cleaned text, the raw text and the settings. */
    method HandleImport(extracted: Option<string>, pageNumbers: string -> string, freshId: string, now: string,
                        store: BookStorage)
      returns (imported: bool)
      modifies this, store
      ensures selectedFile == old(selectedFile) && settings == old(settings)
      ensures imported <==> old(selectedFile).Some? && extracted.Some?
      ensures old(selectedFile).None? ==> error == old(error) && store.books == old(store.books)
      ensures old(selectedFile).Some? && extracted.None? ==>
        error == Some(ImportFailedMessage) && store.books == old(store.books)
      ensures imported ==>
        var data := BookData(selectedFile.value, settings,
                             ApplyImportSettings(settings, pageNumbers, extracted.value), extracted.value);
        error == None && store.books == old(store.books) + [NewBook(data, freshId, now)]
    {
      if selectedFile.None? {
        return false;
      }
      error := None;
      if extracted.None? {
        error := Some(ImportFailedMessage);
        return false;
      }
      var rawText := extracted.value;
      var processed := ApplyImportSettings(settings, pageNumbers, rawText);
      var data := BookData(selectedFile.value, settings, processed, rawText);
      var book := store.Create(data, freshId, now);
      imported := true;
    }
  }
}
