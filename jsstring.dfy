/** The JavaScript string primitives the workers rely on: the white space
    that `trim` and `parseInt` skip, `trim` itself, and `parseInt(s, 10)`,
    which reads the longest decimal prefix after an optional sign and gives
    `NaN` (here `None`) when there is none. */
module JsString {
  import opened Wrappers
  import opened Text

  /** ECMAScript WhiteSpace and LineTerminator code points. */
  predicate IsJsWhitespace(c: char) {
    || c == '\t' || c == '\n' || c == '\U{B}' || c == '\U{C}' || c == '\r' || c == ' '
    || c == '\U{A0}' || c == '\U{1680}' || ('\U{2000}' <= c <= '\U{200A}')
    || c == '\U{2028}' || c == '\U{2029}' || c == '\U{202F}' || c == '\U{205F}'
    || c == '\U{3000}' || c == '\U{FEFF}'
  }

  predicate IsJsBlank(s: string) {
    forall i | 0 <= i < |s| :: IsJsWhitespace(s[i])
  }

  /** The index of the first character at or after `i` that is not white
      space, or `|s|`. */
  function BlankPrefixEnd(s: string, i: nat): (n: nat)
    requires i <= |s|
    decreases |s| - i
    ensures i <= n <= |s|
    ensures forall k | i <= k < n :: IsJsWhitespace(s[k])
    ensures n < |s| ==> !IsJsWhitespace(s[n])
  {
    if i < |s| && IsJsWhitespace(s[i]) then BlankPrefixEnd(s, i + 1) else i
  }

  /** The index just after the last character before `j` that is not white
      space, or 0. */
  function BlankSuffixStart(s: string, j: nat): (n: nat)
    requires j <= |s|
    ensures n <= j
    ensures forall k | n <= k < j :: IsJsWhitespace(s[k])
    ensures n > 0 ==> !IsJsWhitespace(s[n - 1])
  {
    if j > 0 && IsJsWhitespace(s[j - 1]) then BlankSuffixStart(s, j - 1) else j
  }

  function TrimStart(s: string): (r: string)
    ensures |r| <= |s| && r == s[|s| - |r|..]
    ensures IsJsBlank(s[..|s| - |r|])
    ensures r == [] || !IsJsWhitespace(r[0])
  {
    var n := BlankPrefixEnd(s, 0);
    assert forall k | 0 <= k < n :: s[..n][k] == s[k];
    s[n..]
  }

  function TrimEnd(s: string): (r: string)
    ensures |r| <= |s| && r == s[..|r|]
    ensures IsJsBlank(s[|r|..])
    ensures r == [] || !IsJsWhitespace(r[|r| - 1])
  {
    var n := BlankSuffixStart(s, |s|);
    assert forall k | 0 <= k < |s| - n :: s[n..][k] == s[n + k];
    s[..n]
  }

  /** `String.prototype.trim`. */
  function Trim(s: string): string {
    TrimEnd(TrimStart(s))
  }

  /** Trimming gives the empty string exactly for all-white-space input. */
  lemma TrimEmptyIffBlank(s: string)
    ensures Trim(s) == [] <==> IsJsBlank(s)
  {
    var t := TrimStart(s);
    var a := |s| - |t|;
    if Trim(s) == [] {
      assert t[0..] == t;
      BlankConcat(s[..a], t);
      assert s[..a] + t == s;
    }
  }

  /** A non-empty trimmed text starts and ends with a character other than
      white space. */
  lemma TrimEnds(s: string)
    ensures var r := Trim(s);
            r != [] ==> !IsJsWhitespace(r[0]) && !IsJsWhitespace(r[|r| - 1])
  {
    var t := TrimStart(s);
    var r := TrimEnd(t);
    if r != [] {
      assert r[0] == t[0];
    }
  }

  lemma BlankConcat(a: string, b: string)
    requires IsJsBlank(a) && IsJsBlank(b)
    ensures IsJsBlank(a + b)
  {
    forall i | 0 <= i < |a + b| ensures IsJsWhitespace((a + b)[i]) {
      if i >= |a| {
        assert (a + b)[i] == b[i - |a|];
      }
    }
  }

  /** The longest prefix of decimal digits. */
  function LeadingDigits(s: string): (r: string)
    ensures |r| <= |s| && r == s[..|r|]
    ensures forall i | 0 <= i < |r| :: IsDigit(r[i])
    ensures |r| == |s| || !IsDigit(s[|r|])
  {
    if s != [] && IsDigit(s[0]) then [s[0]] + LeadingDigits(s[1..]) else []
  }

  /** `parseInt(s, 10)`: `None` stands for `NaN`. */
  function ParseInt(s: string): Option<int> {
    ParseSigned(TrimStart(s))
  }

  /** After the white space: an optional sign, then the digits. */
  function ParseSigned(t: string): Option<int> {
    if t != [] && t[0] == '-' then Negate(ParseDigits(t[1..]))
    else if t != [] && t[0] == '+' then ParseDigits(t[1..])
    else ParseDigits(t)
  }

  /** The value of the leading digits, `NaN` when there are none. */
  function ParseDigits(rest: string): Option<int> {
    var digits := LeadingDigits(rest);
    if digits == [] then None else Some(DigitsValue(digits))
  }

  function Negate(o: Option<int>): Option<int> {
    if o.Some? then Some(-o.value) else None
  }

  lemma {:induction false} LeadingDigitsOfDigits(s: string)
    requires forall i | 0 <= i < |s| :: IsDigit(s[i])
    ensures LeadingDigits(s) == s
  {
    if s != [] {
      LeadingDigitsOfDigits(s[1..]);
    }
  }

  lemma TrimStartKeeps(s: string)
    requires s != [] && (s[0] == '-' || IsDigit(s[0]))
    ensures TrimStart(s) == s
  {
    assert !IsJsWhitespace(s[0]);
    assert BlankPrefixEnd(s, 0) == 0;
    assert s[0..] == s;
  }

  lemma ParseDigitsOfDigits(digits: string)
    requires digits != [] && forall i | 0 <= i < |digits| :: IsDigit(digits[i])
    ensures ParseDigits(digits) == Some(DigitsValue(digits))
  {
    LeadingDigitsOfDigits(digits);
  }

  /** Reading back the decimal rendering of a natural number gives it. */
  lemma ParseIntOfNatToString(n: nat)
    ensures ParseInt(NatToString(n)) == Some(n)
  {
    TrimStartKeeps(NatToString(n));
    ParseDigitsOfDigits(NatToString(n));
    NatToStringValue(n);
  }

  /** A minus sign followed by the rendering of `m` reads as `-m`. */
  lemma ParseSignedOfNegative(m: nat)
    ensures ParseSigned("-" + NatToString(m)) == Some(-(m as int))
  {
    var t := "-" + NatToString(m);
    assert t[1..] == NatToString(m);
    ParseDigitsOfDigits(NatToString(m));
    NatToStringValue(m);
  }

  /** Reading back the decimal rendering of any integer gives the integer. */
  lemma ParseIntOfIntToString(n: int)
    ensures ParseInt(IntToString(n)) == Some(n)
  {
    if n < 0 {
      var m: nat := -n;
      var s := "-" + NatToString(m);
      assert IntToString(n) == s;
      TrimStartKeeps(s);
      assert ParseInt(s) == ParseSigned(s);
      ParseSignedOfNegative(m);
    } else {
      ParseIntOfNatToString(n);
    }
  }

  /** The text is `NaN` exactly when no digit follows the white space and
      the optional sign; leading white space and trailing junk are ignored. */
  lemma ParseIntNaN(s: string)
    ensures var t := TrimStart(s);
            var rest := if t != [] && (t[0] == '-' || t[0] == '+') then t[1..] else t;
            ParseInt(s).None? <==> (rest == [] || !IsDigit(rest[0]))
  {
    var t := TrimStart(s);
    var rest := if t != [] && (t[0] == '-' || t[0] == '+') then t[1..] else t;
    assert ParseInt(s).None? <==> ParseDigits(rest).None?;
  }
}
