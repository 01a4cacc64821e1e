/**
 * ASCII models of the Python string operations the scripts rely on:
 * str.strip, str.lower, str.upper, str.title, str.capitalize, str.isalnum,
 * '/'.join and the decimal rendering and parsing of str(n) and int(s).
 * Python's versions are Unicode-aware; these treat every non-ASCII character
 * as neither a letter, a digit nor white space.
 */
module Text {

  predicate IsSpace(c: char) { c == ' ' || '\t' <= c <= '\r' }
  predicate IsUpper(c: char) { 'A' <= c <= 'Z' }
  predicate IsLower(c: char) { 'a' <= c <= 'z' }
  predicate IsLetter(c: char) { IsUpper(c) || IsLower(c) }
  predicate IsDigit(c: char) { '0' <= c <= '9' }
  predicate IsAlnum(c: char) { IsLetter(c) || IsDigit(c) }

  function LowerChar(c: char): (r: char)
    ensures !IsUpper(r) && (IsLetter(r) <==> IsLetter(c))
    ensures !IsLetter(c) ==> r == c
  {
    if IsUpper(c) then (c as int + 32) as char else c
  }

  function UpperChar(c: char): (r: char)
    ensures !IsLower(r) && (IsLetter(r) <==> IsLetter(c))
    ensures !IsLetter(c) ==> r == c
  {
    if IsLower(c) then (c as int - 32) as char else c
  }

  /** str.lower */
  function Lower(s: string): (r: string)
    ensures |r| == |s|
    ensures forall i :: 0 <= i < |s| ==> r[i] == LowerChar(s[i])
  {
    seq(|s|, i requires 0 <= i < |s| => LowerChar(s[i]))
  }

  /** str.upper */
  function Upper(s: string): (r: string)
    ensures |r| == |s|
    ensures forall i :: 0 <= i < |s| ==> r[i] == UpperChar(s[i])
  {
    seq(|s|, i requires 0 <= i < |s| => UpperChar(s[i]))
  }

  /** Case-insensitive equality, as `a.lower() == b.lower()`. */
  predicate EqualsIgnoreCase(a: string, b: string) { Lower(a) == Lower(b) }

  lemma LowerIdempotent(s: string)
    ensures Lower(Lower(s)) == Lower(s)
  {
  }

  lemma UpperIdempotent(s: string)
    ensures Upper(Upper(s)) == Upper(s)
  {
  }

  function TrimLeft(s: string): string {
    if |s| > 0 && IsSpace(s[0]) then TrimLeft(s[1..]) else s
  }

  function TrimRight(s: string): string {
    if |s| > 0 && IsSpace(s[|s| - 1]) then TrimRight(s[..|s| - 1]) else s
  }

  /** TrimLeft drops exactly the leading white space. */
  lemma {:induction false} TrimLeftFacts(s: string)
    ensures |TrimLeft(s)| <= |s| && TrimLeft(s) == s[|s| - |TrimLeft(s)|..]
    ensures TrimLeft(s) == [] || !IsSpace(TrimLeft(s)[0])
    ensures forall i :: 0 <= i < |s| - |TrimLeft(s)| ==> IsSpace(s[i])
  {
    if |s| > 0 && IsSpace(s[0]) {
      TrimLeftFacts(s[1..]);
    }
  }

  /** TrimRight drops exactly the trailing white space. */
  lemma {:induction false} TrimRightFacts(s: string)
    ensures |TrimRight(s)| <= |s| && TrimRight(s) == s[..|TrimRight(s)|]
    ensures TrimRight(s) == [] || !IsSpace(TrimRight(s)[|TrimRight(s)| - 1])
    ensures forall i :: |TrimRight(s)| <= i < |s| ==> IsSpace(s[i])
  {
    if |s| > 0 && IsSpace(s[|s| - 1]) {
      TrimRightFacts(s[..|s| - 1]);
    }
  }

  /** str.strip(): drops leading and trailing white space. */
  function Strip(s: string): (r: string)
    ensures r == [] || (!IsSpace(r[0]) && !IsSpace(r[|r| - 1]))
  {
    TrimLeftFacts(s);
    TrimRightFacts(TrimLeft(s));
    TrimRight(TrimLeft(s))
  }

  /** strip() keeps a slice of s and drops only white space around it. */
  lemma StripIsSlice(s: string)
    ensures exists i, j ::
              && 0 <= i <= j <= |s| && Strip(s) == s[i..j]
              && (forall k :: 0 <= k < i ==> IsSpace(s[k]))
              && (forall k :: j <= k < |s| ==> IsSpace(s[k]))
  {
    var t := TrimLeft(s);
    var r := TrimRight(t);
    TrimLeftFacts(s);
    TrimRightFacts(t);
    assert r == s[|s| - |t|..|s| - |t| + |r|];
  }

  /** A string with no white space at either end is unchanged by strip(). */
  lemma StripUnchanged(s: string)
    requires s == [] || (!IsSpace(s[0]) && !IsSpace(s[|s| - 1]))
    ensures Strip(s) == s
  {
    assert TrimLeft(s) == s;
    assert TrimRight(s) == s;
  }

  /** A string without any white space is unchanged by strip(). */
  lemma StripNoSpace(s: string)
    requires forall i :: 0 <= i < |s| ==> !IsSpace(s[i])
    ensures Strip(s) == s
  {
    StripUnchanged(s);
  }

  /** A string made only of white space strips to the empty string. */
  lemma {:induction false} StripAllSpace(s: string)
    requires forall i :: 0 <= i < |s| ==> IsSpace(s[i])
    ensures Strip(s) == ""
  {
    if |s| > 0 {
      StripAllSpace(s[1..]);
      assert TrimLeft(s) == TrimLeft(s[1..]);
    }
  }

  /** strip() of a string with no white space at either end, or of one made only of white space. */
  lemma StripCases(s: string)
    ensures s == [] || (!IsSpace(s[0]) && !IsSpace(s[|s| - 1])) ==> Strip(s) == s
    ensures (forall i :: 0 <= i < |s| ==> IsSpace(s[i])) ==> Strip(s) == ""
  {
    if s == [] || (!IsSpace(s[0]) && !IsSpace(s[|s| - 1])) {
      StripUnchanged(s);
    }
    if forall i :: 0 <= i < |s| ==> IsSpace(s[i]) {
      StripAllSpace(s);
    }
  }

  function TitleChar(c: char, afterLetter: bool): char {
    if afterLetter then LowerChar(c) else UpperChar(c)
  }

  /**
   * str.title(): a letter that follows a letter is lower-cased, any other
   * letter is upper-cased; other characters are kept.
   */
  function Title(s: string): (r: string)
    ensures |r| == |s|
    ensures forall i :: 0 <= i < |s| ==> IsLetter(r[i]) == IsLetter(s[i])
  {
    seq(|s|, i requires 0 <= i < |s| => TitleChar(s[i], i > 0 && IsLetter(s[i - 1])))
  }

  /** Title-casing a title-cased string changes nothing. */
  lemma TitleIdempotent(s: string)
    ensures Title(Title(s)) == Title(s)
  {
  }

  lemma TitleCharIgnoresCase(c: char, d: char, afterLetter: bool)
    requires LowerChar(c) == LowerChar(d)
    ensures TitleChar(c, afterLetter) == TitleChar(d, afterLetter)
    ensures IsLetter(c) == IsLetter(d)
  {
  }

  /** Title-casing does not look at the case of the input. */
  lemma TitleIgnoresCase(a: string, b: string)
    requires Lower(a) == Lower(b)
    ensures Title(a) == Title(b)
  {
    assert |a| == |b|;
    forall i | 0 <= i < |a|
      ensures IsLetter(a[i]) == IsLetter(b[i])
      ensures TitleChar(a[i], i > 0 && IsLetter(a[i - 1])) == TitleChar(b[i], i > 0 && IsLetter(b[i - 1]))
    {
      assert Lower(a)[i] == Lower(b)[i];
      if i > 0 {
        assert Lower(a)[i - 1] == Lower(b)[i - 1];
        TitleCharIgnoresCase(a[i - 1], b[i - 1], false);
      }
      TitleCharIgnoresCase(a[i], b[i], i > 0 && IsLetter(a[i - 1]));
    }
  }

  /** Title-casing changes only the case of letters. */
  lemma LowerOfTitle(s: string)
    ensures Lower(Title(s)) == Lower(s)
  {
    forall i | 0 <= i < |s|
      ensures Lower(Title(s))[i] == Lower(s)[i]
    {
      assert Title(s)[i] == TitleChar(s[i], i > 0 && IsLetter(s[i - 1]));
    }
  }

  /** Title-casing leaves s unchanged from position i on. */
  predicate TitledFrom(s: string, i: nat)
    decreases |s| - i
  {
    i >= |s| || (TitleChar(s[i], i > 0 && IsLetter(s[i - 1])) == s[i] && TitledFrom(s, i + 1))
  }

  lemma {:induction false} TitledAt(s: string, j: nat, i: nat)
    requires TitledFrom(s, j) && j <= i < |s|
    ensures TitleChar(s[i], i > 0 && IsLetter(s[i - 1])) == s[i]
    decreases i - j
  {
    if j < i {
      TitledAt(s, j + 1, i);
    }
  }

  /** A string checked position by position is a fixed point of Title. */
  lemma TitledUnchanged(s: string)
    requires TitledFrom(s, 0)
    ensures Title(s) == s
  {
    forall i | 0 <= i < |s| ensures Title(s)[i] == s[i] {
      TitledAt(s, 0, i);
    }
  }

  /** str.capitalize(): the first character upper-cased, the rest lower-cased. */
  function Capitalize(s: string): (r: string)
    ensures |r| == |s|
    ensures |s| > 0 ==> r[0] == UpperChar(s[0]) && r[1..] == Lower(s[1..])
  {
    if s == [] then [] else [UpperChar(s[0])] + Lower(s[1..])
  }

  /** sep.join(parts): starts with the first part and ends with the last. */
  function Join(sep: string, parts: seq<string>): (r: string)
    ensures parts == [] ==> r == ""
    ensures |parts| == 1 ==> r == parts[0]
    ensures parts != [] ==> |parts[0]| <= |r| && r[..|parts[0]|] == parts[0]
    ensures parts != [] ==> |parts[|parts| - 1]| <= |r| && r[|r| - |parts[|parts| - 1]|..] == parts[|parts| - 1]
  {
    if parts == [] then ""
    else if |parts| == 1 then parts[0]
    else Join(sep, parts[..|parts| - 1]) + sep + parts[|parts| - 1]
  }

  /** Joining one more part appends the separator and that part. */
  lemma JoinSnoc(sep: string, parts: seq<string>, p: string)
    requires parts != []
    ensures Join(sep, parts + [p]) == Join(sep, parts) + sep + p
  {
    assert (parts + [p])[..|parts|] == parts;
  }

  function DigitChar(d: nat): (c: char)
    requires d < 10
    ensures IsDigit(c)
  {
    ('0' as int + d) as char
  }

  function DigitValue(c: char): (d: nat)
    requires IsDigit(c)
    ensures d < 10
  {
    c as int - '0' as int
  }

  /** str(n) for a non-negative integer: its decimal digits, no leading zero. */
  function DecimalString(n: nat): (s: string)
    ensures |s| > 0 && forall i :: 0 <= i < |s| ==> IsDigit(s[i])
    ensures |s| > 1 ==> s[0] != '0'
  {
    if n < 10 then [DigitChar(n)] else DecimalString(n / 10) + [DigitChar(n % 10)]
  }

  predicate AllDigits(s: string) { forall i :: 0 <= i < |s| ==> IsDigit(s[i]) }

  /** int(s) for a string of decimal digits. */
  function ParseDecimal(s: string): nat
    requires AllDigits(s)
  {
    if s == [] then 0 else ParseDecimal(s[..|s| - 1]) * 10 + DigitValue(s[|s| - 1])
  }

  /** int(str(n)) == n. */
  lemma {:induction false} ParseDecimalString(n: nat)
    ensures ParseDecimal(DecimalString(n)) == n
  {
    var s := DecimalString(n);
    if n < 10 {
      assert s[..0] == [];
    } else {
      assert s[..|s| - 1] == DecimalString(n / 10);
      ParseDecimalString(n / 10);
    }
  }

  /** str is injective on non-negative integers. */
  lemma DecimalStringInjective(m: nat, n: nat)
    requires DecimalString(m) == DecimalString(n)
    ensures m == n
  {
    ParseDecimalString(m);
    ParseDecimalString(n);
  }
}
