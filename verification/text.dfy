/**
 The string helpers of the models: `capitalizedFirstLetter`, the name normaliser that runs as a
 setter on every stored product name, and `defaultDate`, the creation-date default of an order.
 The clock `defaultDate` reads is replaced by explicit year, month and day arguments.
 */
module Text {
  import opened Chars

  predicate AllTrimmable(s: string) { forall i :: 0 <= i < |s| ==> IsTrimmable(s[i]) }

  /** Neither end of `s` is a character `trim` would remove. */
  predicate Unpadded(s: string) {
    |s| == 0 || (!IsTrimmable(s[0]) && !IsTrimmable(s[|s| - 1]))
  }

  /** The first index at or after `i` that `trim` keeps, or `|s|` when there is none. */
  function FirstKept(s: string, i: nat): (k: nat)
    requires i <= |s|
    ensures i <= k <= |s|
    ensures forall j :: i <= j < k ==> IsTrimmable(s[j])
    ensures k < |s| ==> !IsTrimmable(s[k])
    decreases |s| - i
  {
    if i < |s| && IsTrimmable(s[i]) then FirstKept(s, i + 1) else i
  }

  /** The end of the kept text below `j`: only whitespace lies between it and `j`. */
  function LastKept(s: string, lo: nat, j: nat): (k: nat)
    requires lo <= j <= |s|
    ensures lo <= k <= j
    ensures forall m :: k <= m < j ==> IsTrimmable(s[m])
    ensures k > lo ==> !IsTrimmable(s[k - 1])
    decreases j
  {
    if j > lo && IsTrimmable(s[j - 1]) then LastKept(s, lo, j - 1) else j
  }

  /** How many whitespace characters `trim` removes from the front of `s`. */
  function LeadingSpace(s: string): (k: nat)
    ensures k <= |s| && forall j :: 0 <= j < k ==> IsTrimmable(s[j])
    ensures k < |s| ==> !IsTrimmable(s[k])
  {
    FirstKept(s, 0)
  }

  /**
   `String.prototype.trim`: the unpadded middle of `s`, starting after the leading whitespace and
   followed by nothing but whitespace.
   */
  function Trim(s: string): (r: string)
    ensures Unpadded(r)
    ensures LeadingSpace(s) + |r| <= |s|
    ensures r == s[LeadingSpace(s)..LeadingSpace(s) + |r|]
    ensures forall j :: LeadingSpace(s) + |r| <= j < |s| ==> IsTrimmable(s[j])
  {
    var a := LeadingSpace(s);
    s[a..LastKept(s, a, |s|)]
  }

  /** Trimming is fully determined by the padding: whitespace around an unpadded middle goes. */
  lemma TrimOfPadded(pre: string, t: string, post: string)
    requires AllTrimmable(pre) && AllTrimmable(post) && Unpadded(t)
    ensures Trim(pre + t + post) == t
  {
    var s := pre + t + post;
    var a, b := |pre|, |pre| + |t|;
    assert forall j :: 0 <= j < a ==> s[j] == pre[j];
    assert forall j :: b <= j < |s| ==> s[j] == post[j - b];
    if t == [] {
      assert LeadingSpace(s) == |s|;
    } else {
      assert s[a] == t[0] && s[b - 1] == t[|t| - 1];
      assert LeadingSpace(s) == a;
      assert LastKept(s, a, |s|) == b;
      assert s[a..b] == t;
    }
  }

  /** An unpadded string is its own trim. */
  lemma TrimUnpadded(s: string)
    requires Unpadded(s)
    ensures Trim(s) == s
  {
    TrimOfPadded([], s, []);
    assert [] + s + [] == s;
  }

  /**
   `capitalizedFirstLetter`: trims, upper-cases the first character and lower-cases the rest.
   The source indexes the first character of the trimmed value, which throws on a blank value,
   so callers must pass a value that is not blank.
   */
  function CapitalizedFirstLetter(v: string): (r: string)
    requires Trim(v) != []
    ensures |r| == |Trim(v)|
    ensures r[0] == ToUpper(Trim(v)[0])
    ensures forall i :: 1 <= i < |r| ==> r[i] == ToLower(Trim(v)[i])
  {
    Capitalized(Trim(v))
  }

  /** The first character upper-cased and the others lower-cased. */
  function Capitalized(t: string): (r: string)
    requires t != []
    ensures |r| == |t| && r[0] == ToUpper(t[0])
    ensures forall i :: 1 <= i < |r| ==> r[i] == ToLower(t[i])
  {
    var tail := LowerAll(t[1..]);
    assert forall i :: 1 <= i < |t| ==> tail[i - 1] == ToLower(t[i]);
    [ToUpper(t[0])] + tail
  }

  /** The normalised name keeps no whitespace at either end. */
  lemma CapitalizedIsUnpadded(v: string)
    requires Trim(v) != []
    ensures Unpadded(CapitalizedFirstLetter(v))
  {
    var t := Trim(v);
    var r := CapitalizedFirstLetter(v);
    CaseMappingKeepsTrimmable(t[0]);
    CaseMappingKeepsTrimmable(t[|t| - 1]);
  }

  /** Normalising twice is normalising once. */
  lemma CapitalizedIdempotent(v: string)
    requires Trim(v) != []
    ensures Trim(CapitalizedFirstLetter(v)) != []
    ensures CapitalizedFirstLetter(CapitalizedFirstLetter(v)) == CapitalizedFirstLetter(v)
  {
    var t, r := Trim(v), CapitalizedFirstLetter(v);
    CapitalizedIsUnpadded(v);
    TrimUnpadded(r);
    var rr := Capitalized(r);
    forall i | 0 <= i < |r| ensures rr[i] == r[i] {
      if i == 0 { UpperIdempotent(t[0]); } else { LowerIdempotent(t[i]); }
    }
  }

  /** The comparison key of a name: trimmed and lower-cased. */
  function FoldCase(v: string): string {
    LowerAll(Trim(v))
  }

  /**
   Two names normalise to the same stored name exactly when they are the same text up to ASCII
   case and surrounding whitespace: product-name uniqueness is therefore case-insensitive.
   */
  lemma CapitalizedEqualIff(a: string, b: string)
    requires Trim(a) != [] && Trim(b) != []
    ensures CapitalizedFirstLetter(a) == CapitalizedFirstLetter(b) <==> FoldCase(a) == FoldCase(b)
  {
    if CapitalizedFirstLetter(a) == CapitalizedFirstLetter(b) {
      CapitalizedDeterminesFold(a, b);
    }
    if FoldCase(a) == FoldCase(b) {
      FoldDeterminesCapitalized(a, b);
    }
  }

  lemma CapitalizedDeterminesFold(a: string, b: string)
    requires Trim(a) != [] && Trim(b) != []
    requires CapitalizedFirstLetter(a) == CapitalizedFirstLetter(b)
    ensures FoldCase(a) == FoldCase(b)
  {
    var ta, tb := Trim(a), Trim(b);
    var r := CapitalizedFirstLetter(a);
    forall i | 0 <= i < |ta|
      ensures ToLower(ta[i]) == ToLower(tb[i])
    {
      if i == 0 {
        LowerOfUpper(ta[0]);
        LowerOfUpper(tb[0]);
      } else {
        LowerIdempotent(ta[i]);
        LowerIdempotent(tb[i]);
      }
    }
  }

  lemma FoldDeterminesCapitalized(a: string, b: string)
    requires Trim(a) != [] && Trim(b) != []
    requires FoldCase(a) == FoldCase(b)
    ensures CapitalizedFirstLetter(a) == CapitalizedFirstLetter(b)
  {
    var ta, tb := Trim(a), Trim(b);
    var ra, rb := CapitalizedFirstLetter(a), CapitalizedFirstLetter(b);
    assert |ta| == |FoldCase(a)| == |tb|;
    forall i | 0 <= i < |ra|
      ensures ra[i] == rb[i]
    {
      assert ToLower(ta[i]) == FoldCase(a)[i] == FoldCase(b)[i] == ToLower(tb[i]);
      if i == 0 {
        UpperOfLower(ta[0]);
        UpperOfLower(tb[0]);
      }
    }
  }

  /** The decimal digit for `n < 10`. */
  function DigitChar(n: nat): (c: char)
    requires n < 10
    ensures IsDigit(c) && c as int - '0' as int == n
  {
    ('0' as int + n) as char
  }

  /** The value of a string of decimal digits. */
  function DecimalValue(s: string): nat
    requires forall i :: 0 <= i < |s| ==> IsDigit(s[i])
  {
    if |s| == 0 then 0
    else
      assert IsDigit(s[|s| - 1]);
      10 * DecimalValue(s[..|s| - 1]) + (s[|s| - 1] as int - '0' as int)
  }

  /** Template-literal conversion of a non-negative integer, as `${n}` writes it. */
  function NatToString(n: nat): (r: string)
    ensures |r| > 0 && forall i :: 0 <= i < |r| ==> IsDigit(r[i])
    ensures DecimalValue(r) == n
    ensures |r| > 1 ==> r[0] != '0'
    ensures n < 10 <==> |r| == 1
    decreases n
  {
    if n < 10 then [DigitChar(n)]
    else
      var r := NatToString(n / 10) + [DigitChar(n % 10)];
      assert r[..|r| - 1] == NatToString(n / 10);
      r
  }

  /** Decimal writing is determined by the value: no leading zeros, so it is the inverse of reading. */
  lemma {:induction false} NatToStringOfDecimal(s: string)
    requires |s| > 0 && forall i :: 0 <= i < |s| ==> IsDigit(s[i])
    requires |s| > 1 ==> s[0] != '0'
    ensures NatToString(DecimalValue(s)) == s
    decreases |s|
  {
    if |s| > 1 {
      var p := s[..|s| - 1];
      NatToStringOfDecimal(p);
      assert DecimalValue(p) > 0 by { LeadingDigitBound(p); }
      var n := DecimalValue(s);
      assert n / 10 == DecimalValue(p) && n % 10 == s[|s| - 1] as int - '0' as int;
      assert s == p + [s[|s| - 1]];
    }
  }

  lemma {:induction false} LeadingDigitBound(s: string)
    requires |s| > 0 && forall i :: 0 <= i < |s| ==> IsDigit(s[i])
    requires s[0] != '0'
    ensures DecimalValue(s) > 0
    decreases |s|
  {
    if |s| > 1 {
      LeadingDigitBound(s[..|s| - 1]);
    }
  }

  /** The month as `defaultDate` writes it: zero-padded below 10. */
  function PaddedMonth(month: nat): (r: string)
    ensures |r| > 0 && forall i :: 0 <= i < |r| ==> IsDigit(r[i])
    ensures DecimalValue(r) == month
    ensures month < 100 ==> |r| == 2
  {
    if month < 10 then
      var r := "0" + NatToString(month);
      assert r[..1] == "0";
      r
    else NatToString(month)
  }

  /**
   `defaultDate`: year, zero-padded month and the day of the month, joined by dashes. The day is
   written by template-literal conversion only, so days 1 to 9 take one character.
   */
  function DefaultDate(year: nat, month: nat, day: nat): string {
    NatToString(year) + "-" + PaddedMonth(month) + "-" + NatToString(day)
  }

  /**
   Reading `defaultDate` back: the year digits, a dash, two month digits, a dash and the day
   digits, each field holding its own value; the date is one character short exactly on days
   below 10.
   */
  lemma DefaultDateLayout(year: nat, month: nat, day: nat)
    requires 1 <= month <= 12
    ensures var r, k := DefaultDate(year, month, day), |NatToString(year)|;
      && |r| >= k + 5
      && r[..k] == NatToString(year) && DecimalValue(r[..k]) == year
      && r[k] == '-' && r[k + 3] == '-'
      && IsDigit(r[k + 1]) && IsDigit(r[k + 2]) && DecimalValue(r[k + 1..k + 3]) == month
      && r[k + 4..] == NatToString(day) && DecimalValue(r[k + 4..]) == day
      && (|r| == k + 5 <==> day < 10)
  {
    var r, k := DefaultDate(year, month, day), |NatToString(year)|;
    assert r[..k] == NatToString(year);
    assert r[k + 1..k + 3] == PaddedMonth(month);
    assert r[k + 4..] == NatToString(day);
  }
}
