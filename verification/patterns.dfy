/**
 The regular expressions of the rule tables and controllers, each stated as a predicate on
 strings: the 24-hex ObjectId shape, the `YYYY-MM-DD` date shape, the 2-25 character name shape
 and the e-mail shape.
 */
module Patterns {
  import opened Chars
  import opened Text

  /** `/^[0-9a-fA-F]{24}$/` */
  predicate IsObjectId(s: string) {
    |s| == 24 && forall i :: 0 <= i < |s| ==> IsHexDigit(s[i])
  }

  /** `0[1-9]|1[0-2]` */
  predicate IsMonthDigits(a: char, b: char) {
    (a == '0' && '1' <= b <= '9') || (a == '1' && '0' <= b <= '2')
  }

  /** `0[1-9]|[12][0-9]|3[01]` */
  predicate IsDayDigits(a: char, b: char) {
    || (a == '0' && '1' <= b <= '9')
    || ((a == '1' || a == '2') && IsDigit(b))
    || (a == '3' && (b == '0' || b == '1'))
  }

  /** `/^(?:\d{4}-(?:0[1-9]|1[0-2])-(?:0[1-9]|[12][0-9]|3[01]))$/` */
  predicate IsDate(s: string) {
    && |s| == 10
    && IsDigit(s[0]) && IsDigit(s[1]) && IsDigit(s[2]) && IsDigit(s[3])
    && s[4] == '-' && IsMonthDigits(s[5], s[6])
    && s[7] == '-' && IsDayDigits(s[8], s[9])
  }

  function TwoDigitValue(a: char, b: char): int {
    10 * (a as int - '0' as int) + (b as int - '0' as int)
  }

  /**
   What the date pattern means: four digits, then a two-digit month from 1 to 12 and a two-digit
   day from 1 to 31, with no check of the day against the month.
   */
  lemma DateMeansRanges(s: string)
    ensures IsDate(s) <==>
      && |s| == 10
      && (forall i :: 0 <= i < 10 && i != 4 && i != 7 ==> IsDigit(s[i]))
      && s[4] == '-' && s[7] == '-'
      && 1 <= TwoDigitValue(s[5], s[6]) <= 12
      && 1 <= TwoDigitValue(s[8], s[9]) <= 31
  {
    if |s| == 10 && (forall i :: 0 <= i < 10 && i != 4 && i != 7 ==> IsDigit(s[i])) {
      assert IsDigit(s[5]) && IsDigit(s[6]) && IsDigit(s[8]) && IsDigit(s[9]);
      MonthDigitsMeanRange(s[5], s[6]);
      DayDigitsMeanRange(s[8], s[9]);
    }
  }

  lemma MonthDigitsMeanRange(a: char, b: char)
    requires IsDigit(a) && IsDigit(b)
    ensures IsMonthDigits(a, b) <==> 1 <= TwoDigitValue(a, b) <= 12
  {
  }

  lemma DayDigitsMeanRange(a: char, b: char)
    requires IsDigit(a) && IsDigit(b)
    ensures IsDayDigits(a, b) <==> 1 <= TwoDigitValue(a, b) <= 31
  {
  }

  /** `/^.{2,25}$/`: 2 to 25 characters, none of them a line terminator. */
  predicate IsNameLength(s: string) {
    2 <= |s| <= 25 && forall i :: 0 <= i < |s| ==> !IsLineTerminator(s[i])
  }

  /** Joins `parts` with `sep` between consecutive parts. */
  function Join(parts: seq<string>, sep: char): string
    requires |parts| > 0
  {
    if |parts| == 1 then parts[0]
    else Join(parts[..|parts| - 1], sep) + [sep] + parts[|parts| - 1]
  }

  /** `s.split(sep)`: the maximal runs of `s` free of `sep`, in order; empty runs included. */
  function Split(s: string, sep: char): (parts: seq<string>)
    ensures |parts| > 0
    decreases |s|
  {
    if |s| == 0 then [[]]
    else
      var init := Split(s[..|s| - 1], sep);
      var c := s[|s| - 1];
      if c == sep then init + [[]]
      else init[..|init| - 1] + [init[|init| - 1] + [c]]
  }

  /** Splitting and joining again gives back the string. */
  lemma {:induction false} JoinSplit(s: string, sep: char)
    ensures Join(Split(s, sep), sep) == s
    decreases |s|
  {
    if |s| > 0 {
      var p := s[..|s| - 1];
      var init := Split(p, sep);
      JoinSplit(p, sep);
      var c := s[|s| - 1];
      var parts := Split(s, sep);
      if c == sep {
        assert parts[..|parts| - 1] == init;
      } else {
        JoinAppendToLast(init, sep, c);
      }
      assert s == p + [c];
    }
  }

  lemma JoinAppendToLast(parts: seq<string>, sep: char, c: char)
    requires |parts| > 0
    ensures Join(parts[..|parts| - 1] + [parts[|parts| - 1] + [c]], sep) == Join(parts, sep) + [c]
  {
    var q := parts[..|parts| - 1] + [parts[|parts| - 1] + [c]];
    if |parts| > 1 {
      assert q[..|q| - 1] == parts[..|parts| - 1];
    }
  }

  /** Splitting one character more: a separator opens a new part, anything else extends the last. */
  lemma SplitSnoc(s: string, c: char, sep: char)
    ensures var init := Split(s, sep);
      Split(s + [c], sep) ==
        if c == sep then init + [[]] else init[..|init| - 1] + [init[|init| - 1] + [c]]
  {
    assert (s + [c])[..|s|] == s;
  }

  /** The parts are the runs between separators: none of them holds one. */
  lemma {:induction false} SplitPartsFree(s: string, sep: char)
    ensures forall k :: 0 <= k < |Split(s, sep)| ==> sep !in Split(s, sep)[k]
    decreases |s|
  {
    if |s| > 0 {
      var p, c := s[..|s| - 1], s[|s| - 1];
      assert s == p + [c];
      SplitPartsFree(p, sep);
      SplitSnoc(p, c, sep);
    }
  }

  /** Joining parts free of `sep` and splitting again gives back the parts. */
  lemma {:induction false} SplitJoin(parts: seq<string>, sep: char)
    requires |parts| > 0
    requires forall k :: 0 <= k < |parts| ==> sep !in parts[k]
    ensures Split(Join(parts, sep), sep) == parts
    decreases |parts|, |parts[|parts| - 1]|
  {
    var n := |parts|;
    var last := parts[n - 1];
    if |last| > 0 {
      var shorter := Shortened(parts);
      assert sep !in shorter[n - 1] by {
        assert forall x :: x in last[..|last| - 1] ==> x in last;
      }
      assert forall k :: 0 <= k < n - 1 ==> shorter[k] == parts[k];
      SplitJoin(shorter, sep);
      assert last[|last| - 1] != sep by { assert last[|last| - 1] in last; }
      SplitJoinExtend(parts, sep);
    } else if n > 1 {
      SplitJoin(parts[..n - 1], sep);
      SplitJoinOpen(parts, sep);
    }
  }

  /** The parts with the last character of the last part dropped. */
  function Shortened(parts: seq<string>): (r: seq<string>)
    requires |parts| > 0 && |parts[|parts| - 1]| > 0
  {
    var last := parts[|parts| - 1];
    parts[..|parts| - 1] + [last[..|last| - 1]]
  }

  lemma ShortenedRestores(parts: seq<string>)
    requires |parts| > 0 && |parts[|parts| - 1]| > 0
    ensures var n, shorter, last := |parts|, Shortened(parts), parts[|parts| - 1];
      shorter[..n - 1] + [shorter[n - 1] + [last[|last| - 1]]] == parts
  {
    var n, shorter, last := |parts|, Shortened(parts), parts[|parts| - 1];
    assert shorter[..n - 1] == parts[..n - 1];
    assert last[..|last| - 1] + [last[|last| - 1]] == last;
  }

  /** A non-separator character at the end of the last part extends the last part. */
  lemma SplitJoinExtend(parts: seq<string>, sep: char)
    requires |parts| > 0 && |parts[|parts| - 1]| > 0
    requires parts[|parts| - 1][|parts[|parts| - 1]| - 1] != sep
    requires Split(Join(Shortened(parts), sep), sep) == Shortened(parts)
    ensures Split(Join(parts, sep), sep) == parts
  {
    var n, shorter := |parts|, Shortened(parts);
    var c := parts[n - 1][|parts[n - 1]| - 1];
    ShortenedRestores(parts);
    var joined := Join(shorter, sep);
    assert Join(parts, sep) == joined + [c] by { JoinAppendToLast(shorter, sep, c); }
    SplitSnoc(joined, c, sep);
    assert Split(joined + [c], sep) == shorter[..n - 1] + [shorter[n - 1] + [c]];
  }

  /** An empty last part costs one separator. */
  lemma SplitJoinOpen(parts: seq<string>, sep: char)
    requires |parts| > 1 && parts[|parts| - 1] == []
    requires Split(Join(parts[..|parts| - 1], sep), sep) == parts[..|parts| - 1]
    ensures Split(Join(parts, sep), sep) == parts
  {
    var init := parts[..|parts| - 1];
    assert parts == init + [[]];
    assert Join(parts, sep) == Join(init, sep) + [sep];
    SplitSnoc(Join(init, sep), sep, sep);
  }

  /** `[\w-]+` */
  predicate IsWordRun(s: string) {
    |s| > 0 && forall i :: 0 <= i < |s| ==> IsWordChar(s[i]) || s[i] == '-'
  }

  /** `[a-zA-Z]{2,7}` */
  predicate IsTopLevelLabel(s: string) {
    2 <= |s| <= 7 && forall i :: 0 <= i < |s| ==> IsLetter(s[i])
  }

  /** `[\w-]+(\.[\w-]+)*`: word runs separated by single dots. */
  predicate IsLocalPart(s: string) {
    var runs := Split(s, '.');
    forall k :: 0 <= k < |runs| ==> IsWordRun(runs[k])
  }

  /** `([\w-]+\.)+[a-zA-Z]{2,7}`: at least one dotted word run, then 2 to 7 letters. */
  predicate IsDomain(s: string) {
    var labels := Split(s, '.');
    && |labels| >= 2
    && (forall k :: 0 <= k < |labels| - 1 ==> IsWordRun(labels[k]))
    && IsTopLevelLabel(labels[|labels| - 1])
  }

  /**
   `/^[\w-]+(\.[\w-]+)*@([\w-]+\.)+[a-zA-Z]{2,7}$/`. None of the runs can hold `@`, so the
   address holds exactly one `@`, with the local part before it and the domain after it.
   */
  predicate IsEmail(s: string) {
    var halves := Split(s, '@');
    |halves| == 2 && IsLocalPart(halves[0]) && IsDomain(halves[1])
  }

  /** The address holds exactly one `@`: the local part is before it and the domain after it. */
  lemma EmailHasOneAt(s: string)
    requires IsEmail(s)
    ensures exists i :: 0 <= i < |s| && s[i] == '@' && '@' !in s[..i] && '@' !in s[i + 1..]
  {
    var halves := Split(s, '@');
    JoinSplit(s, '@');
    SplitPartsFree(s, '@');
    assert halves[..1] == [halves[0]];
    assert s == halves[0] + ['@'] + halves[1];
    var i := |halves[0]|;
    assert s[..i] == halves[0] && s[i + 1..] == halves[1];
  }

  function LowerParts(parts: seq<string>): (r: seq<string>)
    ensures |r| == |parts| && forall k :: 0 <= k < |parts| ==> r[k] == LowerAll(parts[k])
  {
    seq(|parts|, k requires 0 <= k < |parts| => LowerAll(parts[k]))
  }

  /** Lower-casing commutes with splitting on a separator that is not a letter. */
  lemma {:induction false} SplitLower(s: string, sep: char)
    requires !IsLetter(sep)
    ensures Split(LowerAll(s), sep) == LowerParts(Split(s, sep))
    decreases |s|
  {
    if |s| > 0 {
      var p, c := s[..|s| - 1], s[|s| - 1];
      assert s == p + [c];
      SplitLower(p, sep);
      assert LowerAll(s) == LowerAll(p) + [ToLower(c)] by {
        LowerAllConcat(p, [c]);
      }
      assert ToLower(c) == sep <==> c == sep;
      SplitSnoc(p, c, sep);
      SplitSnoc(LowerAll(p), ToLower(c), sep);
      LowerPartsSnoc(Split(p, sep), c);
    }
  }

  /** `LowerParts` on the two ways `SplitSnoc` grows a list of parts. */
  lemma LowerPartsSnoc(parts: seq<string>, c: char)
    requires |parts| > 0
    ensures LowerParts(parts + [[]]) == LowerParts(parts) + [[]]
    ensures var n, l := |parts|, LowerParts(parts);
      LowerParts(parts[..n - 1] + [parts[n - 1] + [c]]) == l[..n - 1] + [l[n - 1] + [ToLower(c)]]
  {
    var n, l := |parts|, LowerParts(parts);
    var q := parts[..n - 1] + [parts[n - 1] + [c]];
    LowerAllConcat(parts[n - 1], [c]);
    assert LowerParts(q)[n - 1] == l[n - 1] + [ToLower(c)];
    assert forall k :: 0 <= k < n - 1 ==> LowerParts(q)[k] == l[k];
  }

  lemma WordRunLower(s: string)
    ensures IsWordRun(LowerAll(s)) <==> IsWordRun(s)
  {
  }

  lemma TopLevelLabelLower(s: string)
    ensures IsTopLevelLabel(LowerAll(s)) <==> IsTopLevelLabel(s)
  {
  }

  /**
   Lower-casing keeps an address valid and an invalid one invalid, so the `lowercase` setter
   that runs before the stored address is matched again never changes the verdict.
   */
  lemma EmailLower(s: string)
    ensures IsEmail(LowerAll(s)) <==> IsEmail(s)
  {
    SplitLower(s, '@');
    var halves := Split(s, '@');
    if |halves| == 2 {
      LocalPartLower(halves[0]);
      DomainLower(halves[1]);
    }
  }

  lemma LocalPartLower(s: string)
    ensures IsLocalPart(LowerAll(s)) <==> IsLocalPart(s)
  {
    SplitLower(s, '.');
    var runs := Split(s, '.');
    forall k | 0 <= k < |runs|
      ensures IsWordRun(LowerAll(runs[k])) <==> IsWordRun(runs[k])
    {
      WordRunLower(runs[k]);
    }
  }

  lemma DomainLower(s: string)
    ensures IsDomain(LowerAll(s)) <==> IsDomain(s)
  {
    SplitLower(s, '.');
    var labels := Split(s, '.');
    forall k | 0 <= k < |labels|
      ensures IsWordRun(LowerAll(labels[k])) <==> IsWordRun(labels[k])
      ensures IsTopLevelLabel(LowerAll(labels[k])) <==> IsTopLevelLabel(labels[k])
    {
      WordRunLower(labels[k]);
      TopLevelLabelLower(labels[k]);
    }
  }
}
