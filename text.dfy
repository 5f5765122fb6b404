/**
 * The JavaScript string operations the application relies on, on `string = seq<char>`:
 * `trim`, `split(sep).pop()`, `toLowerCase`, `includes`, `replace(/\D/g, '')`, `parseInt`
 * and the decimal formatting of numbers in template literals.
 */
module Text {
  import opened Wrappers
  import Seqs

  predicate IsDigit(c: char) {
    '0' <= c <= '9'
  }

  /**
   * The white space `trim` and `parseInt` skip: the ASCII ones, no-break space, the byte-order mark
   * and the line and paragraph separators U+2028 and U+2029.
   */
  predicate IsSpace(c: char) {
    c == ' ' || c == '\t' || c == '\n' || c == '\r' || c == 11 as char || c == 12 as char
    || c == 0xA0 as char || c == 0xFEFF as char || c == 0x2028 as char || c == 0x2029 as char
  }

  predicate AllDigits(s: string) {
    forall i :: 0 <= i < |s| ==> IsDigit(s[i])
  }

  // ---------------------------------------------------------------- trimming

  /** `s.trimStart()`: the suffix of `s` left after dropping its leading white space. */
  function TrimStart(s: string): (r: string)
    ensures |r| <= |s| && r == s[|s| - |r|..]
    ensures forall i :: 0 <= i < |s| - |r| ==> IsSpace(s[i])
    ensures r != [] ==> !IsSpace(r[0])
  {
    if s != [] && IsSpace(s[0]) then TrimStart(s[1..]) else s
  }

  /** `s.trimEnd()`: the prefix of `s` left after dropping its trailing white space. */
  function TrimEnd(s: string): (r: string)
    ensures |r| <= |s| && r == s[..|r|]
    ensures forall i :: |r| <= i < |s| ==> IsSpace(s[i])
    ensures r != [] ==> !IsSpace(r[|r| - 1])
  {
    if s != [] && IsSpace(s[|s| - 1]) then TrimEnd(s[..|s| - 1]) else s
  }

  /** `r` is the part of `s` that starts at `k`, with only white space before and after it. */
  predicate MiddleAt(s: string, r: string, k: nat) {
    k + |r| <= |s| && r == s[k..k + |r|]
    && (forall i :: 0 <= i < k ==> IsSpace(s[i]))
    && (forall i :: k + |r| <= i < |s| ==> IsSpace(s[i]))
  }

  /** `s.trim()`: the middle of `s`, with its leading and trailing white space cut off. */
  function Trim(s: string): (r: string)
    ensures r != [] ==> !IsSpace(r[0]) && !IsSpace(r[|r| - 1])
    ensures exists k: nat :: MiddleAt(s, r, k)
  {
    TrimIsMiddle(s);
    TrimEnd(TrimStart(s))
  }

  /** The trim sits at the index where the leading white space ends. */
  lemma TrimIsMiddle(s: string)
    ensures MiddleAt(s, TrimEnd(TrimStart(s)), |s| - |TrimStart(s)|)
  {
    var t := TrimStart(s);
    PrefixOfSuffix(s, t, TrimEnd(t));
  }

  /** A prefix `r` of a suffix `t` of `s`, with white space around both cuts, is the middle of `s`. */
  lemma PrefixOfSuffix(s: string, t: string, r: string)
    requires |t| <= |s| && t == s[|s| - |t|..]
    requires forall i :: 0 <= i < |s| - |t| ==> IsSpace(s[i])
    requires |r| <= |t| && r == t[..|r|]
    requires forall i :: |r| <= i < |t| ==> IsSpace(t[i])
    ensures MiddleAt(s, r, |s| - |t|)
  {
    var k := |s| - |t|;
    forall i | k + |r| <= i < |s| ensures IsSpace(s[i]) {
      assert s[i] == t[i - k];
    }
  }

  /** Trimming introduces no character: one missing from `s` is missing from its trim. */
  lemma TrimAddsNothing(s: string, x: char)
    requires x !in s
    ensures x !in Trim(s)
  {
    var r := Trim(s);
    var k: nat :| MiddleAt(s, r, k);
    assert forall i :: 0 <= i < |r| ==> r[i] == s[k + i];
  }

  /** A string without white space at either end is its own trim. */
  lemma TrimmedIsFixed(s: string)
    requires s != [] ==> !IsSpace(s[0]) && !IsSpace(s[|s| - 1])
    ensures Trim(s) == s
  {
    var t := TrimStart(s);
    if |t| < |s| {
      assert IsSpace(s[0]);
    }
    assert t == s;
  }

  /** Trimming a single space off the front of an already trimmed string: `" India".trim() == "India"`. */
  lemma TrimLeadingSpace(s: string)
    requires s != [] ==> !IsSpace(s[0]) && !IsSpace(s[|s| - 1])
    ensures Trim(" " + s) == s
  {
    assert (" " + s)[1..] == s;
    assert TrimStart(" " + s) == TrimStart(s);
    TrimmedIsFixed(s);
  }

  // ---------------------------------------------------------------- splitting

  /**
   * `s.split(sep).pop()`: the text after the last `sep`, or all of `s` when it has none.
   * The three ensures pin it down: the longest suffix of `s` that holds no `sep`.
   */
  function LastSegment(s: string, sep: char): (r: string)
    ensures |r| <= |s| && r == s[|s| - |r|..]
    ensures sep !in r
    ensures |r| < |s| ==> s[|s| - |r| - 1] == sep
  {
    if s == [] then []
    else if s[|s| - 1] == sep then []
    else LastSegment(s[..|s| - 1], sep) + [s[|s| - 1]]
  }

  /** The segment after a separator that is not followed by another one is what `pop` returns. */
  lemma {:induction false} LastSegmentAfter(a: string, sep: char, b: string)
    requires sep !in b
    ensures LastSegment(a + [sep] + b, sep) == b
    decreases |b|
  {
    var x := a + [sep] + b;
    if b != [] {
      var init := b[..|b| - 1];
      assert b[|b| - 1] in b;
      assert x[..|x| - 1] == a + [sep] + init;
      assert forall c :: c in init ==> c in b;
      LastSegmentAfter(a, sep, init);
      assert init + [b[|b| - 1]] == b;
    }
  }

  /** A string without the separator is a single segment. */
  lemma LastSegmentWhole(s: string, sep: char)
    requires sep !in s
    ensures LastSegment(s, sep) == s
  {
    var r := LastSegment(s, sep);
  }

  // ---------------------------------------------------------------- case and search

  /** `toLowerCase` on one character (ASCII letters; other characters are left as they are). */
  function LowerChar(c: char): (d: char)
    ensures !('A' <= d <= 'Z')
    ensures !('A' <= c <= 'Z') ==> d == c
  {
    if 'A' <= c <= 'Z' then (c as int + 32) as char else c
  }

  /** `s.toLowerCase()`. */
  function Lower(s: string): (r: string)
    ensures |r| == |s|
  {
    seq(|s|, i requires 0 <= i < |s| => LowerChar(s[i]))
  }

  /** `sub` occurs in `s` starting at index `i`. */
  predicate OccursAt(s: string, sub: string, i: nat) {
    i + |sub| <= |s| && s[i..i + |sub|] == sub
  }

  /** `s.includes(sub)`: `sub` occurs in `s` at some position. */
  predicate Contains(s: string, sub: string) {
    exists i: nat | i <= |s| :: OccursAt(s, sub, i)
  }

  /** Every string contains the empty string. */
  lemma ContainsEmpty(s: string)
    ensures Contains(s, [])
  {
    assert OccursAt(s, [], 0);
  }

  /** `s.replace(/\D/g, '')`: the digits of `s`, in order. */
  function StripNonDigits(s: string): (r: string)
    ensures AllDigits(r)
    ensures Seqs.IsSubsequence(r, s)
    ensures forall c :: c in s && IsDigit(c) ==> c in r
    ensures forall c :: multiset(r)[c] == if IsDigit(c) then multiset(s)[c] else 0
  {
    Seqs.FilterIsSubsequence(s, IsDigit);
    Seqs.FilterMultiset(s, IsDigit);
    var r := Seqs.Filter(s, IsDigit);
    assert forall i :: 0 <= i < |r| ==> r[i] in r;
    r
  }

  // ---------------------------------------------------------------- numbers

  function DigitValue(c: char): (d: nat)
    requires IsDigit(c)
    ensures d < 10
  {
    c as int - '0' as int
  }

  function DigitChar(d: nat): (c: char)
    requires d < 10
    ensures IsDigit(c) && DigitValue(c) == d
  {
    ('0' as int + d) as char
  }

  /** The value of a string of decimal digits (leading zeros allowed). */
  function DigitsValue(s: string): nat
    requires AllDigits(s)
  {
    if s == [] then 0 else 10 * DigitsValue(s[..|s| - 1]) + DigitValue(s[|s| - 1])
  }

  /** The decimal digits of `n` as a template literal writes them. */
  function NatToString(n: nat): (r: string)
    ensures r != [] && AllDigits(r)
    ensures DigitsValue(r) == n
    ensures |r| > 1 ==> r[0] != '0'
  {
    if n < 10 then [DigitChar(n)]
    else
      var prefix := NatToString(n / 10);
      var r := prefix + [DigitChar(n % 10)];
      assert r[..|r| - 1] == prefix;
      r
  }

  /** A template literal's rendering of an integer: a minus sign before a negative one. */
  function IntToString(i: int): (r: string)
    ensures r != [] && '=' !in r
  {
    if i < 0 then "-" + NatToString(-i) else NatToString(i)
  }

  /** The longest prefix of `s` made of digits. */
  function LeadingDigits(s: string): (r: string)
    ensures |r| <= |s| && r == s[..|r|]
    ensures AllDigits(r)
    ensures |r| < |s| ==> !IsDigit(s[|r|])
  {
    if s != [] && IsDigit(s[0]) then [s[0]] + LeadingDigits(s[1..]) else []
  }

  /**
   * `parseInt(s)` for decimal text: skip leading white space, read an optional sign, then the longest
   * run of digits; `None` stands for `NaN`, which is what `parseInt` gives when there is no digit.
   */
  function ParseInt(s: string): (r: Option<int>)
  {
    var t := TrimStart(s);
    var signed := t != [] && (t[0] == '-' || t[0] == '+');
    var digits := LeadingDigits(if signed then t[1..] else t);
    var magnitude: int := if digits == [] then 0 else DigitsValue(digits);
    if digits == [] then None
    else if signed && t[0] == '-' then Some(-magnitude)
    else Some(magnitude)
  }

  /**
   * After leading white space and an optional sign, `parseInt` gives `NaN` exactly when no digit
   * follows; a negative result needs a minus sign.
   */
  lemma ParseIntNaN(s: string)
    ensures var t := TrimStart(s);
      var body := if t != [] && (t[0] == '-' || t[0] == '+') then t[1..] else t;
      && (ParseInt(s).None? <==> body == [] || !IsDigit(body[0]))
      && (ParseInt(s).Some? && ParseInt(s).value < 0 ==> t[0] == '-')
  {
  }

  /** A string of digits parses to its value, and the empty string to `NaN`. */
  lemma ParseDigits(s: string)
    requires AllDigits(s)
    ensures ParseInt(s) == if s == [] then None else Some(DigitsValue(s))
  {
    if s != [] {
      assert IsDigit(s[0]);
      assert !IsSpace(s[0]) && s[0] != '-' && s[0] != '+';
      assert TrimStart(s) == s;
      assert LeadingDigits(s) == s;
    }
  }

  /** A string that starts with neither white space, a sign nor a digit parses to `NaN`. */
  lemma ParseNonNumeric(s: string)
    requires s != [] && !IsSpace(s[0]) && !IsDigit(s[0]) && s[0] != '-' && s[0] != '+'
    ensures ParseInt(s) == None
  {
    assert TrimStart(s) == s;
  }

  /** Formatting an integer and parsing it back gives the integer: `parseInt(String(i)) == i`. */
  lemma {:induction false} ParseIntToString(i: int)
    ensures ParseInt(IntToString(i)) == Some(i)
  {
    if i >= 0 {
      ParseDigits(NatToString(i));
    } else {
      var digits := NatToString(-i);
      var s := "-" + digits;
      assert s[0] == '-' && !IsSpace(s[0]);
      assert TrimStart(s) == s;
      assert s[1..] == digits;
      assert LeadingDigits(digits) == digits;
      assert ParseInt(s) == Some(i);
    }
  }

  /** The digits of a string of digits followed by a non-digit are exactly that string. */
  lemma {:induction false} LeadingDigitsConcat(d: string, rest: string)
    requires AllDigits(d)
    requires rest == [] || !IsDigit(rest[0])
    ensures LeadingDigits(d + rest) == d
  {
    if d == [] {
      assert d + rest == rest;
    } else {
      assert (d + rest)[0] == d[0];
      assert (d + rest)[1..] == d[1..] + rest;
      LeadingDigitsConcat(d[1..], rest);
      assert [d[0]] + d[1..] == d;
    }
  }

  /** `parseInt` reads a formatted integer back even when other text follows it, as long as that text does not start with a digit. */
  lemma ParseIntThenText(i: int, rest: string)
    requires rest == [] || !IsDigit(rest[0])
    ensures ParseInt(IntToString(i) + rest) == Some(i)
  {
    var digits := NatToString(if i < 0 then -i else i);
    LeadingDigitsConcat(digits, rest);
    if i >= 0 {
      assert IntToString(i) + rest == digits + rest;
      ParseLeadingDigits(digits + rest, digits);
    } else {
      var s := "-" + (digits + rest);
      assert IntToString(i) + rest == s;
      assert s[1..] == digits + rest;
      ParseNegative(s, digits);
    }
  }

  /** Text that starts with a run of digits parses to the value of that run. */
  lemma ParseLeadingDigits(s: string, digits: string)
    requires digits != [] && AllDigits(digits) && LeadingDigits(s) == digits
    ensures ParseInt(s) == Some(DigitsValue(digits))
  {
    assert s[0] == digits[0];
    assert !IsSpace(s[0]) && s[0] != '-' && s[0] != '+';
    assert TrimStart(s) == s;
  }

  /** A minus sign followed by a run of digits parses to the negated value of that run. */
  lemma ParseNegative(s: string, digits: string)
    requires s != [] && s[0] == '-'
    requires digits != [] && AllDigits(digits) && LeadingDigits(s[1..]) == digits
    ensures ParseInt(s) == Some(-(DigitsValue(digits) as int))
  {
    assert !IsSpace(s[0]);
    assert TrimStart(s) == s;
  }

  /** Distinct integers are written differently. */
  lemma IntToStringInjective(i: int, j: int)
    requires IntToString(i) == IntToString(j)
    ensures i == j
  {
    ParseIntToString(i);
    ParseIntToString(j);
  }
}
