/** JavaScript's two ways of reading an integer out of text, as the
    controllers and the e-mail service use them: `parseInt(s, 10)` and the
    unary plus `+s`. A JavaScript number is modelled as `Some(n)` for an
    integer `n` and `None` for `NaN`. */
module Numbers {

  import opened Outcome
  import opened Text

  /** `s` with its leading whitespace removed. */
  function TrimStart(s: string): (t: string)
    ensures |t| <= |s| && EndsWith(s, t)
    ensures |t| > 0 ==> !IsSpace(t[0])
    ensures IsBlank(s[..|s| - |t|])
    decreases |s|
  {
    if |s| > 0 && IsSpace(s[0]) then
      var t := TrimStart(s[1..]);
      assert s[..|s| - |t|] == [s[0]] + s[1..][..|s[1..]| - |t|];
      t
    else s
  }

  /** `s` with its trailing whitespace removed. */
  function TrimEnd(s: string): (t: string)
    ensures |t| <= |s| && StartsWith(s, t)
    ensures |t| > 0 ==> !IsSpace(t[|t| - 1])
    ensures IsBlank(s[|t|..])
    decreases |s|
  {
    if |s| > 0 && IsSpace(s[|s| - 1]) then
      var t := TrimEnd(s[..|s| - 1]);
      assert s[|t|..] == s[..|s| - 1][|t|..] + [s[|s| - 1]];
      t
    else s
  }

  /** The longest prefix of `s` made of decimal digits. */
  function DigitPrefix(s: string): (d: string)
    ensures StartsWith(s, d) && AllDigits(d)
    ensures |d| < |s| ==> !IsDigit(s[|d|])
    decreases |s|
  {
    if |s| > 0 && IsDigit(s[0]) then
      var d := DigitPrefix(s[1..]);
      assert ([s[0]] + d)[1..] == d;
      [s[0]] + d
    else ""
  }

  /** `v` under the sign a leading `-` or `+` of `s` gives. */
  function Signed(s: string, v: int): (r: int)
    ensures |s| > 0 && s[0] == '-' ==> r == -v
    ensures |s| == 0 || s[0] != '-' ==> r == v
  {
    if |s| > 0 && s[0] == '-' then -v else v
  }

  /** The text after a leading `-` or `+`. */
  function AfterSign(s: string): (rest: string)
    ensures |s| > 0 && (s[0] == '-' || s[0] == '+') ==> rest == s[1..]
    ensures |s| == 0 || (s[0] != '-' && s[0] != '+') ==> rest == s
  {
    if |s| > 0 && (s[0] == '-' || s[0] == '+') then s[1..] else s
  }

  /** `parseInt(s, 10)`: leading whitespace and one sign are skipped, then
      the longest run of digits is read; no digit at all gives `NaN`. */
  function ParseInt(s: string): (r: Option<int>)
    ensures r.None? <==> DigitPrefix(AfterSign(TrimStart(s))) == ""
    ensures r.Some? ==> r.value == Signed(TrimStart(s), DigitsValue(DigitPrefix(AfterSign(TrimStart(s)))))
  {
    var t := TrimStart(s);
    var digits := DigitPrefix(AfterSign(t));
    if digits == "" then None else Some(Signed(t, DigitsValue(digits)))
  }

  /** The unary plus `+s` on a query value (`undefined` when absent): the
      text is trimmed, the empty text is 0, and otherwise it must be an
      optional sign followed by digits. */
  function ToNumber(s: Option<string>): (r: Option<int>)
    ensures s.None? ==> r.None?
    ensures s.Some? && IsBlank(s.value) ==> r == Some(0)
  {
    match s
    case None => None
    case Some(text) =>
      var t := TrimEnd(TrimStart(text));
      var rest := AfterSign(t);
      if t == "" then Some(0)
      else if rest != "" && AllDigits(rest) then Some(Signed(t, DigitsValue(rest)))
      else None
  }

  /** A digit string is its own longest digit prefix. */
  lemma {:induction false} DigitPrefixOfDigits(s: string, rest: string)
    requires AllDigits(s)
    requires |rest| == 0 || !IsDigit(rest[0])
    ensures DigitPrefix(s + rest) == s
    decreases |s|
  {
    if |s| > 0 {
      assert (s + rest)[1..] == s[1..] + rest;
      DigitPrefixOfDigits(s[1..], rest);
    } else {
      assert s + rest == rest;
    }
  }

  /** Text starting with a digit has no leading whitespace and no sign. */
  lemma StartsWithDigit(s: string)
    requires |s| > 0 && IsDigit(s[0])
    ensures TrimStart(s) == s && AfterSign(s) == s && s[0] != '-'
  {
    assert !IsSpace(s[0]) && s[0] != '+';
  }

  /** `parseInt` reads a run of digits and stops at the first character
      that is not a digit. */
  lemma ParseIntStopsAtNonDigit(digits: string, rest: string)
    requires digits != "" && AllDigits(digits)
    requires |rest| == 0 || !IsDigit(rest[0])
    ensures ParseInt(digits + rest) == Some(DigitsValue(digits))
  {
    assert (digits + rest)[0] == digits[0];
    StartsWithDigit(digits + rest);
    DigitPrefixOfDigits(digits, rest);
  }

  /** `+s` reads a string of digits as its decimal value. */
  lemma ToNumberDigits(s: string)
    requires s != "" && AllDigits(s)
    ensures ToNumber(Some(s)) == Some(DigitsValue(s))
  {
    StartsWithDigit(s);
    assert IsDigit(s[|s| - 1]);
    assert TrimEnd(s) == s;
  }

  /** Both readings give back the number a decimal string was printed from. */
  lemma ReadDecimal(n: nat)
    ensures ParseInt(DecimalString(n)) == Some(n)
    ensures ToNumber(Some(DecimalString(n))) == Some(n)
  {
    var s := DecimalString(n);
    assert s + "" == s;
    ParseIntStopsAtNonDigit(s, "");
    ToNumberDigits(s);
  }

  /** `parseInt` stops before trailing text: a printed number followed by
      anything that does not start with a digit reads as that number ... */
  lemma ParseIntIgnoresTrailing(n: nat, rest: string)
    requires |rest| == 0 || !IsDigit(rest[0])
    ensures ParseInt(DecimalString(n) + rest) == Some(n)
  {
    ParseIntStopsAtNonDigit(DecimalString(n), rest);
  }

  /** ... while the same trailing text, when there is some and it does not
      end in whitespace, makes `+s` NaN. */
  lemma ToNumberRejectsTrailing(n: nat, rest: string)
    requires |rest| > 0 && !IsDigit(rest[0]) && !IsSpace(rest[|rest| - 1])
    ensures ToNumber(Some(DecimalString(n) + rest)).None?
  {
    var s := DecimalString(n) + rest;
    assert s[0] == DecimalString(n)[0];
    StartsWithDigit(s);
    assert s[|s| - 1] == rest[|rest| - 1];
    assert TrimEnd(s) == s;
    assert s[|DecimalString(n)|] == rest[0];
    assert !AllDigits(s);
  }

  /** The empty text is 0 for `+s` but NaN for `parseInt`. */
  lemma EmptyTextDiffers()
    ensures ParseInt("").None?
    ensures ToNumber(Some("")) == Some(0)
  {
  }
}
