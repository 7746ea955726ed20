/** The per-cell coercions of the result extractor: `extract_number`,
    `str.strip` and `determine_property_category`. */
module Coercion {
  import opened Wrappers
  import opened Numerals

  /** The digit characters of `text`, in order (`filter(str.isdigit, text)`,
      restricted to ASCII digits). */
  function KeepDigits(text: string): (ds: string)
    ensures AllDigits(ds) && |ds| <= |text|
    ensures forall k :: 0 <= k < |ds| ==> ds[k] in text
  {
    if text == [] then []
    else if IsDigit(text[0]) then [text[0]] + KeepDigits(text[1..])
    else KeepDigits(text[1..])
  }

  /** No character of `text` is a digit. */
  predicate NoDigit(text: string) {
    forall k :: 0 <= k < |text| ==> !IsDigit(text[k])
  }

  /** `extract_number`: the decimal value of the digits of `text`; `None` when
      there are none, because `float('')` raises and the error is caught. */
  function ExtractNumber(text: string): (r: Option<nat>)
    ensures r == None <==> NoDigit(text)
  {
    var ds := KeepDigits(text);
    NoDigitsKept(text);
    if ds == [] then None else Some(DigitsValue(ds))
  }

  lemma {:induction false} NoDigitsKept(text: string)
    ensures KeepDigits(text) == [] <==> NoDigit(text)
  {
    if text != [] {
      NoDigitsKept(text[1..]);
      assert forall k :: 1 <= k < |text| ==> text[k] == text[1..][k - 1];
    }
  }

  /** Filtering distributes over concatenation. */
  lemma {:induction false} KeepDigitsAppend(a: string, b: string)
    ensures KeepDigits(a + b) == KeepDigits(a) + KeepDigits(b)
  {
    if a != [] {
      assert (a + b)[1..] == a[1..] + b;
      KeepDigitsAppend(a[1..], b);
    } else {
      assert a + b == b;
    }
  }

  /** A string of digits is kept whole. */
  lemma {:induction false} KeepDigitsOfDigits(s: string)
    requires AllDigits(s)
    ensures KeepDigits(s) == s
  {
    if s != [] {
      KeepDigitsOfDigits(s[1..]);
    }
  }

  /** Characters other than digits are dropped wherever they stand: a
      separator or a decimal point between two digit runs does not change the
      result ("1,234" and "12.34" both give 1234). */
  lemma DroppedSeparator(a: string, c: char, b: string)
    requires !IsDigit(c)
    ensures ExtractNumber(a + [c] + b) == ExtractNumber(a + b)
  {
    KeepDigitsAppend(a + [c], b);
    KeepDigitsAppend(a, [c]);
    KeepDigitsAppend(a, b);
    assert [c][1..] == [];
    assert KeepDigits([c]) == [];
    assert KeepDigits(a + [c] + b) == KeepDigits(a + b);
  }

  /** `extract_number(str(n))` gives n back. */
  lemma ExtractNumeral(n: nat)
    ensures ExtractNumber(Numeral(n)) == Some(n)
  {
    KeepDigitsOfDigits(Numeral(n));
    NumeralValue(n);
  }

  lemma ExtractNumberPlain(s: string)
    requires s == "1234"
    ensures ExtractNumber(s) == Some(1234)
  {
    var s3 := s[..3];
    var s2 := s3[..2];
    var s1 := s2[..1];
    assert s1[..0] == [] && DigitsValue(s1) == 1;
    assert s2[|s2| - 1] == '2' && DigitsValue(s2) == 12;
    assert s3[|s3| - 1] == '3' && DigitsValue(s3) == 123;
    assert DigitsValue(s) == 1234;
    KeepDigitsOfDigits(s);
  }

  /** A thousands separator is dropped: "1,234" gives 1234. */
  lemma ThousandsSeparatorExample(s: string)
    requires s == "1,234"
    ensures ExtractNumber(s) == Some(1234)
  {
    assert s == "1" + [','] + "234";
    DroppedSeparator("1", ',', "234");
    ExtractNumberPlain("1" + "234");
  }

  /** A decimal point is dropped too: "12.34" gives 1234, not 12. */
  lemma DecimalPointExample(s: string)
    requires s == "12.34"
    ensures ExtractNumber(s) == Some(1234)
  {
    assert s == "12" + ['.'] + "34";
    DroppedSeparator("12", '.', "34");
    ExtractNumberPlain("12" + "34");
  }

  /** The characters Python's `str.isspace` accepts: the Unicode white space
      (bidirectional classes WS, B and S, and category Zs). */
  const WhiteSpace: set<char> := {
    ' ', '\t', '\n', '\U{0b}', '\U{0c}', '\r', '\U{1c}', '\U{1d}', '\U{1e}', '\U{1f}',
    '\U{85}', '\U{a0}', '\U{1680}',
    '\U{2000}', '\U{2001}', '\U{2002}', '\U{2003}', '\U{2004}', '\U{2005}',
    '\U{2006}', '\U{2007}', '\U{2008}', '\U{2009}', '\U{200a}',
    '\U{2028}', '\U{2029}', '\U{202f}', '\U{205f}', '\U{3000}'
  }

  predicate IsSpace(c: char) {
    c in WhiteSpace
  }

  /** The number of white-space characters at the front of s. */
  function LeadingSpaces(s: string): (n: nat)
    ensures n <= |s|
    ensures forall k :: 0 <= k < n ==> IsSpace(s[k])
    ensures n < |s| ==> !IsSpace(s[n])
  {
    if s == [] || !IsSpace(s[0]) then 0 else 1 + LeadingSpaces(s[1..])
  }

  /** The number of white-space characters at the end of s. */
  function TrailingSpaces(s: string): (n: nat)
    ensures n <= |s|
    ensures forall k :: |s| - n <= k < |s| ==> IsSpace(s[k])
    ensures n < |s| ==> !IsSpace(s[|s| - 1 - n])
  {
    if s == [] || !IsSpace(s[|s| - 1]) then 0 else 1 + TrailingSpaces(s[..|s| - 1])
  }

  /** Neither end of s is white space. */
  predicate Stripped(s: string) {
    s == [] || (!IsSpace(s[0]) && !IsSpace(s[|s| - 1]))
  }

  /** `str.strip()` with no argument: s without its leading and trailing
      white space, the middle kept as it is. */
  function Strip(s: string): (r: string)
    ensures LeadingSpaces(s) + |r| <= |s|
    ensures r == s[LeadingSpaces(s)..LeadingSpaces(s) + |r|]
    ensures forall k :: LeadingSpaces(s) + |r| <= k < |s| ==> IsSpace(s[k])
    ensures Stripped(r)
  {
    var i := LeadingSpaces(s);
    var t := s[i..];
    var n := TrailingSpaces(t);
    var r := s[i..|s| - n];
    assert forall k :: |s| - n <= k < |s| ==> s[k] == t[k - i];
    assert r != [] ==> r[0] == s[i] && r[|r| - 1] == t[|t| - 1 - n];
    r
  }

  /** Stripping twice is stripping once. */
  lemma StripIdempotent(s: string)
    ensures Strip(Strip(s)) == Strip(s)
  {
    var r := Strip(s);
    assert LeadingSpaces(r) == 0;
    assert TrailingSpaces(r) == 0;
  }

  datatype Category = Low | Medium | High

  /** `determine_property_category`: thresholds 1000 and 2000 on the price
      per metre; an absent price gives an absent category, because comparing
      `None < 1000` raises and the error is caught. */
  function DetermineCategory(pricePerMeter: Option<nat>): (r: Option<Category>)
    ensures r.None? <==> pricePerMeter.None?
  {
    match pricePerMeter
    case None => None
    case Some(p) =>
      if p < 1000 then Some(Low)
      else if p < 2000 then Some(Medium)
      else Some(High)
  }

  function Rank(c: Category): nat {
    match c
    case Low => 0
    case Medium => 1
    case High => 2
  }

  /** The three bands, each stated as an if-and-only-if. */
  lemma CategoryBands(p: nat)
    ensures DetermineCategory(Some(p)) == Some(Low) <==> p < 1000
    ensures DetermineCategory(Some(p)) == Some(Medium) <==> 1000 <= p < 2000
    ensures DetermineCategory(Some(p)) == Some(High) <==> 2000 <= p
    ensures DetermineCategory(None) == None
  {
  }

  /** A higher price per metre never gets a lower category. */
  lemma CategoryMonotonic(p: nat, q: nat)
    requires p <= q
    ensures Rank(DetermineCategory(Some(p)).value) <= Rank(DetermineCategory(Some(q)).value)
  {
  }
}
