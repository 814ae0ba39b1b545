/** Text primitives the simulator relies on from .NET: ordinal substring
    search, the white space that Int32/Int64.TryParse skip, decimal
    formatting and parsing of integers, and unchecked two's-complement
    wrap-around of 32- and 64-bit arithmetic. */
module Text {
  import opened Outcomes

  // ---------------------------------------------------------------------
  // Substring search (String.IndexOf, compared ordinally)
  // ---------------------------------------------------------------------

  /** `pat` occurs in `s` starting at position `i`. */
  predicate OccursAt(s: string, pat: string, i: nat) {
    i + |pat| <= |s| && s[i..i + |pat|] == pat
  }

  /** The first position at or after `from` where `pat` occurs. */
  function IndexOfFrom(s: string, pat: string, from: nat): (r: Option<nat>)
    requires from <= |s|
    decreases |s| - from
    ensures r.Some? ==> from <= r.value && OccursAt(s, pat, r.value)
    ensures r.Some? ==> forall j :: from <= j < r.value ==> !OccursAt(s, pat, j)
    ensures r.None? ==> forall j :: from <= j ==> !OccursAt(s, pat, j)
  {
    if from + |pat| > |s| then None
    else if s[from..from + |pat|] == pat then Some(from)
    else IndexOfFrom(s, pat, from + 1)
  }

  /** String.IndexOf(pat): the first occurrence of `pat` in `s`, or none. */
  function IndexOf(s: string, pat: string): (r: Option<nat>)
    ensures r.Some? <==> exists j :: OccursAt(s, pat, j)
    ensures r.Some? ==> OccursAt(s, pat, r.value)
    ensures r.Some? ==> forall j: nat :: j < r.value ==> !OccursAt(s, pat, j)
  {
    IndexOfFrom(s, pat, 0)
  }

  /** A position where `pat` occurs, with no occurrence before it, is what
      IndexOf finds. */
  lemma FirstOccurrence(s: string, pat: string, i: nat)
    requires OccursAt(s, pat, i)
    requires forall j: nat :: j < i ==> !OccursAt(s, pat, j)
    ensures IndexOf(s, pat) == Some(i)
  {
  }

  /** A one-character pattern occurs exactly where that character stands. */
  lemma OccursAtChar(s: string, c: char, i: nat)
    ensures OccursAt(s, [c], i) <==> i < |s| && s[i] == c
  {
    if i < |s| && s[i] == c {
      assert s[i..i + 1] == [c];
    }
  }

  // ---------------------------------------------------------------------
  // Decimal digits
  // ---------------------------------------------------------------------

  predicate IsDigit(c: char) { '0' <= c <= '9' }

  predicate AllDigits(s: string) {
    forall i :: 0 <= i < |s| ==> IsDigit(s[i])
  }

  function DigitValue(c: char): nat
    requires IsDigit(c)
  {
    (c as int) - ('0' as int)
  }

  function DigitChar(d: nat): (c: char)
    requires d < 10
    ensures IsDigit(c) && DigitValue(c) == d
  {
    (('0' as int) + d) as char
  }

  /** The value of a string of decimal digits, most significant first. */
  function DigitsValue(s: string): nat
    requires AllDigits(s)
  {
    if |s| == 0 then 0
    else DigitsValue(s[..|s| - 1]) * 10 + DigitValue(s[|s| - 1])
  }

  /** The shortest decimal spelling of `n` (no leading zeros, "0" for zero). */
  function NatToDigits(n: nat): (s: string)
    ensures |s| > 0 && AllDigits(s)
    ensures s[0] != '0' || n == 0
  {
    if n < 10 then [DigitChar(n)]
    else NatToDigits(n / 10) + [DigitChar(n % 10)]
  }

  lemma {:induction false} DigitsRoundTrip(n: nat)
    ensures DigitsValue(NatToDigits(n)) == n
  {
    if n >= 10 {
      var s := NatToDigits(n);
      assert s[..|s| - 1] == NatToDigits(n / 10);
      DigitsRoundTrip(n / 10);
    }
  }

  /** Int32.ToString() / Int64.ToString() in the invariant culture. */
  function IntToString(n: int): (s: string)
    ensures |s| > 0
    ensures n < 0 <==> s[0] == '-'
    ensures n >= 0 ==> AllDigits(s)
  {
    if n < 0 then "-" + NatToDigits(-n) else NatToDigits(n)
  }

  // ---------------------------------------------------------------------
  // Int32.TryParse / Int64.TryParse (NumberStyles.Integer)
  // ---------------------------------------------------------------------

  /** The white space NumberStyles.AllowLeadingWhite/AllowTrailingWhite
      skip: U+0009 to U+000D and U+0020. */
  predicate IsWhite(c: char) {
    c == ' ' || ('\t' <= c <= '\r')
  }

  function TrimStartWhite(s: string): string {
    if |s| > 0 && IsWhite(s[0]) then TrimStartWhite(s[1..]) else s
  }

  function TrimEndWhite(s: string): string {
    if |s| > 0 && IsWhite(s[|s| - 1]) then TrimEndWhite(s[..|s| - 1]) else s
  }

  function TrimWhite(s: string): string {
    TrimEndWhite(TrimStartWhite(s))
  }

  /** Trimming only removes characters. */
  lemma {:induction false} TrimKeepsCharacters(s: string)
    ensures forall c :: c in TrimWhite(s) ==> c in s
  {
    TrimStartKeeps(s);
    TrimEndKeeps(TrimStartWhite(s));
  }

  lemma {:induction false} TrimEndNulKeeps(s: string)
    ensures forall c :: c in TrimEndNul(s) ==> c in s
    decreases |s|
  {
    if |s| > 0 && s[|s| - 1] == '\0' {
      TrimEndNulKeeps(s[..|s| - 1]);
    }
  }

  lemma {:induction false} TrimStartKeeps(s: string)
    ensures forall c :: c in TrimStartWhite(s) ==> c in s
    decreases |s|
  {
    if |s| > 0 && IsWhite(s[0]) {
      TrimStartKeeps(s[1..]);
    }
  }

  lemma {:induction false} TrimEndKeeps(s: string)
    ensures forall c :: c in TrimEndWhite(s) ==> c in s
    decreases |s|
  {
    if |s| > 0 && IsWhite(s[|s| - 1]) {
      TrimEndKeeps(s[..|s| - 1]);
    }
  }

  /** The '\0' characters .NET's integer parser accepts at the very end
      of its input, after any trailing white space. */
  function TrimEndNul(s: string): string {
    if |s| > 0 && s[|s| - 1] == '\0' then TrimEndNul(s[..|s| - 1]) else s
  }

  /** The text NumberStyles.Integer reads: a trailing run of '\0' dropped,
      then white space trimmed at both ends. */
  function Unpadded(s: string): string {
    TrimWhite(TrimEndNul(s))
  }

  /** The value of NumberStyles.Integer text, whatever its size: optional
      white space, an optional '+' or '-', at least one ASCII digit,
      optional white space, then optionally a run of '\0'. None when the
      text has another form (a FormatException for Int32.Parse). */
  function IntegerSyntax(s: string): (r: Option<int>)
    ensures r.Some? ==> exists c :: c in Unpadded(s) && IsDigit(c)
  {
    var t := Unpadded(s);
    if |t| == 0 then None
    else
      var digits := if t[0] == '-' || t[0] == '+' then t[1..] else t;
      if |digits| == 0 || !AllDigits(digits) then None
      else
        assert digits[0] in t;
        var magnitude: int := DigitsValue(digits);
        Some(if t[0] == '-' then -magnitude else magnitude)
  }

  /** NumberStyles.Integer parsing into the range [lo, hi]: well-formed
      text whose value lies outside the range fails. */
  function ParseInteger(s: string, lo: int, hi: int): (r: Option<int>)
    ensures r.Some? <==> IntegerSyntax(s).Some? && lo <= IntegerSyntax(s).value <= hi
    ensures r.Some? ==> r.value == IntegerSyntax(s).value
  {
    match IntegerSyntax(s)
    case None => None
    case Some(n) => if lo <= n <= hi then Some(n) else None
  }

  const Int32Min: int := -0x8000_0000
  const Int32Max: int := 0x7FFF_FFFF
  const Int64Min: int := -0x8000_0000_0000_0000
  const Int64Max: int := 0x7FFF_FFFF_FFFF_FFFF

  type Int32 = x: int | Int32Min <= x <= Int32Max
  type Int64 = x: int | Int64Min <= x <= Int64Max

  /** Int32.TryParse(s, out v): the parsed value, or none when it fails
      (the out target is then 0). */
  function TryParseInt32(s: string): (r: Option<Int32>)
    ensures r.Some? ==> ParseInteger(s, Int32Min, Int32Max) == Some(r.value as int)
    ensures r.None? ==> ParseInteger(s, Int32Min, Int32Max).None?
  {
    match ParseInteger(s, Int32Min, Int32Max)
    case None => None
    case Some(n) => Some(n)
  }

  /** Int64.TryParse(s, out v). */
  function TryParseInt64(s: string): (r: Option<Int64>)
    ensures r.Some? ==> ParseInteger(s, Int64Min, Int64Max) == Some(r.value as int)
    ensures r.None? ==> ParseInteger(s, Int64Min, Int64Max).None?
  {
    match ParseInteger(s, Int64Min, Int64Max)
    case None => None
    case Some(n) => Some(n)
  }

  /** The value an `out` target holds after TryParse: the parsed value, or 0. */
  function OutValue(r: Option<int>): int {
    if r.Some? then r.value else 0
  }

  /** Formatting an integer and parsing it back yields the same integer. */
  lemma ParseIntToString(n: int, lo: int, hi: int)
    requires lo <= n <= hi
    ensures ParseInteger(IntToString(n), lo, hi) == Some(n)
  {
    if n < 0 {
      DigitsRoundTrip(-n);
      ParseNegatedDigits(NatToDigits(-n), lo, hi);
    } else {
      DigitsRoundTrip(n);
      ParseDigits(NatToDigits(n), lo, hi);
    }
  }

  /** An unsigned run of digits parses to its value. */
  lemma ParseDigits(digits: string, lo: int, hi: int)
    requires |digits| > 0 && AllDigits(digits) && lo <= DigitsValue(digits) <= hi
    ensures ParseInteger(digits, lo, hi) == Some(DigitsValue(digits))
  {
    assert IsDigit(digits[0]) && IsDigit(digits[|digits| - 1]);
    NothingToTrim(digits);
  }

  /** A '-' followed by a run of digits parses to the negated value. */
  lemma ParseNegatedDigits(digits: string, lo: int, hi: int)
    requires |digits| > 0 && AllDigits(digits) && lo <= -(DigitsValue(digits) as int) <= hi
    ensures ParseInteger("-" + digits, lo, hi) == Some(-(DigitsValue(digits) as int))
  {
    var s := "-" + digits;
    assert IsDigit(digits[|digits| - 1]);
    assert s[0] == '-' && s[1..] == digits && s[|s| - 1] == digits[|digits| - 1];
    NothingToTrim(s);
  }

  /** A string that starts and ends with a non-white character is left
      as it is by the trimming. */
  lemma NothingToTrim(s: string)
    requires |s| > 0 && !IsWhite(s[0]) && !IsWhite(s[|s| - 1])
    ensures TrimWhite(s) == s
  {
  }

  lemma TryParseInt32RoundTrip(n: Int32)
    ensures TryParseInt32(IntToString(n)) == Some(n)
  {
    ParseIntToString(n, Int32Min, Int32Max);
  }

  lemma TryParseInt64RoundTrip(n: Int64)
    ensures TryParseInt64(IntToString(n)) == Some(n)
  {
    ParseIntToString(n, Int64Min, Int64Max);
  }

  /** A string without any digit never parses: TryParse fails, the out target is 0. */
  lemma NoDigitNoParse(s: string, lo: int, hi: int)
    requires forall i :: 0 <= i < |s| ==> !IsDigit(s[i])
    ensures ParseInteger(s, lo, hi) == None
  {
    TrimEndNulKeeps(s);
    TrimKeepsCharacters(TrimEndNul(s));
  }

  /** A run of '\0' appended to any text changes nothing about how it
      parses: "5\0" reads as 5. */
  lemma {:induction false} TrailingNulsIgnored(s: string, k: nat, lo: int, hi: int)
    ensures ParseInteger(s + seq(k, _ => '\0'), lo, hi) == ParseInteger(s, lo, hi)
    decreases k
  {
    if k > 0 {
      var padded := s + seq(k, _ => '\0');
      assert padded[..|padded| - 1] == s + seq(k - 1, _ => '\0');
      TrailingNulsIgnored(s, k - 1, lo, hi);
    } else {
      assert s + seq(k, _ => '\0') == s;
    }
  }

  // ---------------------------------------------------------------------
  // Unchecked two's-complement arithmetic
  // ---------------------------------------------------------------------

  /** The int32 that an unchecked C# int expression with exact value `x`
      evaluates to. */
  function Wrap32(x: int): (r: Int32)
    ensures (r - x) % 0x1_0000_0000 == 0
    ensures Int32Min <= x <= Int32Max ==> r == x
  {
    ((x - Int32Min) % 0x1_0000_0000) + Int32Min
  }

  /** The int64 that an unchecked C# long expression with exact value `x`
      evaluates to. */
  function Wrap64(x: int): (r: Int64)
    ensures (r - x) % 0x1_0000_0000_0000_0000 == 0
    ensures Int64Min <= x <= Int64Max ==> r == x
  {
    ((x - Int64Min) % 0x1_0000_0000_0000_0000) + Int64Min
  }
}
