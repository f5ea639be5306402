/** The input validator (`JoiService`). Every check either passes or fails
    with a `CustomError` of status 400 and a fixed message.

    Joi's string schema rejects the empty string before any other rule, so
    every string check below fails on `""`. The regular expressions of the
    validator are written out as `Regex.Pattern` values, and for each one a
    lemma states, in plain terms, which strings it accepts. */
module Validators {

  import opened Outcome
  import opened Regex
  import Text

  // ---------------------------------------------------------------------
  // The patterns, as written in the validator.

  /** `/^[a-fA-F0-9]{24}$/` */
  const HexClass: CharClass := Ranges([('a', 'f'), ('A', 'F'), ('0', '9')])
  const IdPattern: Pattern := Pattern([], [Class(HexClass, 24, Some(24))])

  /** `/^([01]\d|2[0-3]):([0-5]\d) (AM|PM)$/` */
  const TimePattern: Pattern := Pattern([], [
    Alt([Cat([One(Ranges([('0', '1')])), One(Digit)]), Cat([Lit("2"), One(Ranges([('0', '3')]))])]),
    Lit(":"),
    Cat([One(Ranges([('0', '5')])), One(Digit)]),
    Lit(" "),
    Alt([Lit("AM"), Lit("PM")])
  ])

  /** `/^(?=.*[a-z])(?=.*[A-Z])(?=.*\d)(?=.*[@$!%*?&])[A-Za-z\d@$!%*?&]{8,}$/` */
  const Specials: string := "@$!%*?&"
  const Lower: CharClass := Ranges([('a', 'z')])
  const Upper: CharClass := Ranges([('A', 'Z')])
  const PasswordClass: CharClass := Ranges([('A', 'Z'), ('a', 'z'), ('0', '9')] + Chars(Specials).ranges)
  const PasswordPattern: Pattern :=
    Pattern([Lower, Upper, Digit, Chars(Specials)], [Class(PasswordClass, 8, None)])

  /** `/^\d+$/` */
  const OtpPattern: Pattern := Pattern([], [Class(Digit, 1, None)])

  // ---------------------------------------------------------------------
  // What the patterns accept, in plain terms.

  predicate IsHex(c: char) {
    'a' <= c <= 'f' || 'A' <= c <= 'F' || '0' <= c <= '9'
  }

  /** The text of a database id: exactly 24 hexadecimal digits, either case. */
  predicate IsIdText(s: string) {
    |s| == 24 && forall i :: 0 <= i < |s| ==> IsHex(s[i])
  }

  predicate IsLower(c: char) { 'a' <= c <= 'z' }
  predicate IsUpper(c: char) { 'A' <= c <= 'Z' }
  predicate IsPasswordChar(c: char) { IsLower(c) || IsUpper(c) || Text.IsDigit(c) || c in Specials }

  /** At least eight characters, all letters, digits or one of `@$!%*?&`,
      with at least one lower-case letter, one upper-case letter, one digit
      and one special character. */
  predicate IsStrongPassword(p: string) {
    && |p| >= 8
    && (forall i :: 0 <= i < |p| ==> IsPasswordChar(p[i]))
    && (exists i :: 0 <= i < |p| && IsLower(p[i]))
    && (exists i :: 0 <= i < |p| && IsUpper(p[i]))
    && (exists i :: 0 <= i < |p| && Text.IsDigit(p[i]))
    && (exists i :: 0 <= i < |p| && p[i] in Specials)
  }

  /** A wall-clock time as the slot screens write it: `HH:MM AM` or `HH:MM PM`. */
  datatype Meridiem = AM | PM

  datatype ClockText = ClockText(hour: nat, minute: nat, meridiem: Meridiem)

  /** Two decimal digits. */
  function TwoDigits(n: nat): (s: string)
    requires n < 100
    ensures |s| == 2 && Text.AllDigits(s)
  {
    [('0' as int + n / 10) as char, ('0' as int + n % 10) as char]
  }

  function DigitValue(c: char): nat
    requires Text.IsDigit(c)
  {
    c as int - '0' as int
  }

  function MeridiemText(m: Meridiem): string {
    match m
    case AM => "AM"
    case PM => "PM"
  }

  /** The text of a clock reading whose hour field is `00`..`23`. The hour is
      NOT restricted to 1..12: the pattern accepts `13:00 PM` and `00:30 AM`. */
  function FormatTime(t: ClockText): (s: string)
    requires t.hour < 24 && t.minute < 60
    ensures |s| == 8
  {
    TwoDigits(t.hour) + ":" + TwoDigits(t.minute) + " " + MeridiemText(t.meridiem)
  }

  /** Reads `HH:MM AM` / `HH:MM PM` with an hour of at most 23 and a minute of
      at most 59; `None` for anything else. */
  function ParseTime(s: string): (r: Option<ClockText>)
    ensures r.Some? ==> r.value.hour < 24 && r.value.minute < 60
  {
    if |s| == 8 && Text.IsDigit(s[0]) && Text.IsDigit(s[1]) && s[2] == ':'
       && Text.IsDigit(s[3]) && Text.IsDigit(s[4]) && s[5] == ' '
       && (s[6..] == "AM" || s[6..] == "PM")
    then
      var hour := DigitValue(s[0]) * 10 + DigitValue(s[1]);
      var minute := DigitValue(s[3]) * 10 + DigitValue(s[4]);
      if hour < 24 && minute < 60
      then Some(ClockText(hour, minute, if s[6..] == "AM" then AM else PM))
      else None
    else None
  }

  // ---------------------------------------------------------------------
  // The validator's checks.

  const IdMessage: string := "Invalid ID format"
  const TimeMessage: string := "Invalid time format, must be in \"HH:MM AM/PM\" format"
  const PasswordMessage: string :=
    "Password must be at least 8 characters long and contain at least one uppercase letter, one lowercase letter, one number and one special character"
  const OtpMessage: string := "Invalid OTP format. Must be 6 digits."
  const PhoneMessage: string := "Invalid phone number format"
  const EmailMessage: string := "Invalid email format"
  const DateMessage: string := "Invalid date format"
  const RequiredMessage: string := "Missing required fields"
  const BooleanMessage: string := "Invalid boolean value"

  /** A Joi string schema with a pattern: non-empty and matching. */
  function PatternCheck(p: Pattern, s: string, message: string): (c: Check)
    ensures c.Pass? <==> s != "" && Matches(p, s)
    ensures c.Fail? ==> c.error == Custom(BadRequest, message)
  {
    Need(s != "" && Matches(p, s), BadRequest, message)
  }

  /** `validateIdFormat`: passes exactly on 24 hexadecimal digits. */
  function ValidateIdFormat(id: string): (c: Check)
    ensures c.Pass? <==> IsIdText(id)
    ensures c.Fail? ==> c.error == Custom(BadRequest, IdMessage)
  {
    IdPatternMeaning(id);
    PatternCheck(IdPattern, id, IdMessage)
  }

  /** `validateMultipleIds`: passes exactly when every element is an id (and
      so on the empty list). */
  function ValidateMultipleIds(ids: seq<string>): (c: Check)
    ensures c.Pass? <==> forall i :: 0 <= i < |ids| ==> IsIdText(ids[i])
    ensures c.Fail? ==> c.error == Custom(BadRequest, IdMessage)
  {
    if |ids| == 0 then Pass
    else
      var rest := ValidateMultipleIds(ids[1..]);
      assert forall i :: 1 <= i < |ids| ==> ids[i] == ids[1..][i - 1];
      if ValidateIdFormat(ids[0]).Fail? then Fail(Custom(BadRequest, IdMessage)) else rest
  }

  /** `validateTimeFormat`: passes exactly on the texts `ParseTime` reads. */
  function ValidateTimeFormat(time: string): (c: Check)
    ensures c.Pass? <==> ParseTime(time).Some?
    ensures c.Fail? ==> c.error == Custom(BadRequest, TimeMessage)
  {
    TimePatternMeaning(time);
    PatternCheck(TimePattern, time, TimeMessage)
  }

  /** `validatePassword`: passes exactly on strong passwords. */
  function ValidatePassword(password: string): (c: Check)
    ensures c.Pass? <==> IsStrongPassword(password)
    ensures c.Fail? ==> c.error == Custom(BadRequest, PasswordMessage)
  {
    PasswordPatternMeaning(password);
    PatternCheck(PasswordPattern, password, PasswordMessage)
  }

  /** `validateOtpCode`: `/^\d+$/` together with a length of exactly 6. */
  function ValidateOtpCode(code: string): (c: Check)
    ensures c.Pass? <==> |code| == 6 && Text.AllDigits(code)
    ensures c.Fail? ==> c.error == Custom(BadRequest, OtpMessage)
  {
    OtpPatternMeaning(code);
    Need(code != "" && Matches(OtpPattern, code) && |code| == 6, BadRequest, OtpMessage)
  }

  /** The message `validateLength` throws; an absent maximum prints as `Infinity`. */
  function LengthMessage(min: nat, max: Option<nat>): string {
    "Invalid length for field, expected between " + Text.DecimalString(min) + " and "
      + (if max.Some? then Text.DecimalString(max.value) else "Infinity") + " characters"
  }

  /** `validateLength(field, min, max = Infinity)`: `Joi.string().min(min).max(max)`.
      The empty string fails even when `min` is 0. */
  function ValidateLength(field: string, min: nat, max: Option<nat>): (c: Check)
    ensures c.Pass? <==> field != "" && min <= |field| && (max.None? || |field| <= max.value)
    ensures c.Fail? ==> c.error == Custom(BadRequest, LengthMessage(min, max))
  {
    Need(field != "" && min <= |field| && (max.None? || |field| <= max.value),
         BadRequest, LengthMessage(min, max))
  }

  /** `validatePhoneNumber`: 4 to 15 characters, of any kind. */
  function ValidatePhoneNumber(phone: string): (c: Check)
    ensures c.Pass? <==> 4 <= |phone| <= 15
    ensures c.Fail? ==> c.error == Custom(BadRequest, PhoneMessage)
  {
    if ValidateLength(phone, 4, Some(15)).Pass? then Pass else Fail(Custom(BadRequest, PhoneMessage))
  }

  /** The message `validateEnum` throws. */
  function EnumMessage(values: seq<string>): string {
    "Invalid value for field, expected one of: " + Text.JoinWith(values, ", ")
  }

  /** `validateEnum`: passes exactly on one of the listed values. */
  function ValidateEnum(field: string, values: seq<string>): (c: Check)
    ensures c.Pass? <==> field in values
    ensures c.Fail? ==> c.error == Custom(BadRequest, EnumMessage(values))
  {
    Need(field in values, BadRequest, EnumMessage(values))
  }

  /** `validateRequiredFields`: `defined[k]` says whether the k-th field of
      the record is not `undefined`; `null` and `""` count as present. */
  function ValidateRequiredFields(defined: seq<bool>): (c: Check)
    ensures c.Pass? <==> forall k :: 0 <= k < |defined| ==> defined[k]
    ensures c.Fail? ==> c.error == Custom(BadRequest, RequiredMessage)
  {
    Need(forall k :: 0 <= k < |defined| ==> defined[k], BadRequest, RequiredMessage)
  }

  /** `validateEmailFormat`: Joi's e-mail grammar is the parameter `isEmail`. */
  function ValidateEmailFormat(email: string, isEmail: string -> bool): (c: Check)
    ensures c.Pass? <==> email != "" && isEmail(email)
    ensures c.Fail? ==> c.error == Custom(BadRequest, EmailMessage)
  {
    Need(email != "" && isEmail(email), BadRequest, EmailMessage)
  }

  /** `validateDateFormat`: Joi's ISO-8601 grammar is the parameter `isIsoDate`. */
  function ValidateDateFormat(date: string, isIsoDate: string -> bool): (c: Check)
    ensures c.Pass? <==> isIsoDate(date)
    ensures c.Fail? ==> c.error == Custom(BadRequest, DateMessage)
  {
    Need(isIsoDate(date), BadRequest, DateMessage)
  }

  /** `validateBoolean` on a value that is already a boolean always passes. */
  function ValidateBoolean(value: bool): (c: Check)
    ensures c.Pass?
  {
    Pass
  }

  // ---------------------------------------------------------------------
  // Lemmas relating the patterns to their plain meaning.

  lemma HexClassHas(c: char)
    ensures HexClass.Has(c) <==> IsHex(c)
  {
    if 'a' <= c <= 'f' { assert HexClass.ranges[0].0 <= c <= HexClass.ranges[0].1; }
    else if 'A' <= c <= 'F' { assert HexClass.ranges[1].0 <= c <= HexClass.ranges[1].1; }
    else if '0' <= c <= '9' { assert HexClass.ranges[2].0 <= c <= HexClass.ranges[2].1; }
  }

  lemma IdPatternMeaning(s: string)
    ensures s != "" && Matches(IdPattern, s) <==> IsIdText(s)
  {
    SingleMatch(Class(HexClass, 24, Some(24)), s);
    forall i | 0 <= i < |s| ensures HexClass.Has(s[i]) <==> IsHex(s[i]) {
      HexClassHas(s[i]);
    }
  }

  /** A one-character range class holds exactly the characters in the range. */
  lemma SingleRange(lo: char, hi: char, c: char)
    ensures Ranges([(lo, hi)]).Has(c) <==> lo <= c <= hi
  {
    if lo <= c <= hi {
      assert Ranges([(lo, hi)]).ranges[0].0 <= c <= Ranges([(lo, hi)]).ranges[0].1;
    }
  }

  /** The hour alternative `([01]\d|2[0-3])` accepts two digits worth at most 23. */
  lemma HourAlternative(h: string)
    ensures Width(TimePattern.body[0]) == Some(2)
    ensures |h| == 2 ==>
              (MatchTerm(TimePattern.body[0], h) <==>
                 Text.IsDigit(h[0]) && Text.IsDigit(h[1]) && DigitValue(h[0]) * 10 + DigitValue(h[1]) < 24)
  {
    var low := Cat([One(Ranges([('0', '1')])), One(Digit)]);
    var high := Cat([Lit("2"), One(Ranges([('0', '3')]))]);
    assert TimePattern.body[0] == Alt([low, high]);
    OneMatch(Ranges([('0', '1')]), "");
    OneMatch(Ranges([('0', '3')]), "");
    PairWidth(One(Ranges([('0', '1')])), One(Digit));
    PairWidth(Lit("2"), One(Ranges([('0', '3')])));
    assert [low, high][0] == low && [low, high][1] == high;
    assert Width(Alt([low, high])) == Some(2);
    if |h| == 2 {
      OneMatch(Ranges([('0', '1')]), h[..1]);
      OneMatch(Digit, h[1..]);
      OneMatch(Ranges([('0', '3')]), h[1..]);
      PairMatch(One(Ranges([('0', '1')])), One(Digit), h);
      PairMatch(Lit("2"), One(Ranges([('0', '3')])), h);
      assert h[..1][0] == h[0] && h[1..][0] == h[1];
      SingleRange('0', '1', h[0]);
      SingleRange('0', '9', h[1]);
      SingleRange('0', '3', h[1]);
      assert h[..1] == "2" <==> h[0] == '2';
      assert MatchTerm(Alt([low, high]), h) <==> MatchTerm(low, h) || MatchTerm(high, h);
    }
  }

  /** The minute group `([0-5]\d)` accepts two digits worth at most 59. */
  lemma MinuteGroup(m: string)
    ensures Width(TimePattern.body[2]) == Some(2)
    ensures |m| == 2 ==>
              (MatchTerm(TimePattern.body[2], m) <==>
                 Text.IsDigit(m[0]) && Text.IsDigit(m[1]) && DigitValue(m[0]) * 10 + DigitValue(m[1]) < 60)
  {
    OneMatch(Ranges([('0', '5')]), "");
    OneMatch(Digit, "");
    PairWidth(One(Ranges([('0', '5')])), One(Digit));
    if |m| == 2 {
      OneMatch(Ranges([('0', '5')]), m[..1]);
      OneMatch(Digit, m[1..]);
      PairMatch(One(Ranges([('0', '5')])), One(Digit), m);
      assert m[..1][0] == m[0] && m[1..][0] == m[1];
      SingleRange('0', '5', m[0]);
      SingleRange('0', '9', m[1]);
    }
  }

  lemma MeridiemAlternative(a: string)
    ensures Width(TimePattern.body[4]) == Some(2)
    ensures MatchTerm(TimePattern.body[4], a) <==> a == "AM" || a == "PM"
  {
    var alts := [Lit("AM"), Lit("PM")];
    assert TimePattern.body[4] == Alt(alts);
    assert alts[0] == Lit("AM") && alts[1] == Lit("PM");
    if a == "AM" { assert MatchTerm(alts[0], a); }
    if a == "PM" { assert MatchTerm(alts[1], a); }
  }

  /** Only eight-character strings can match the time pattern. */
  lemma TimeLength(s: string)
    ensures MatchCat(TimePattern.body, s) ==> |s| == 8
  {
    var b := TimePattern.body;
    HourAlternative(s);
    MinuteGroup(s);
    MeridiemAlternative(s);
    assert b[4..] == [b[4]] && b[4..][1..] == [];
    assert CatWidth(b[4..]) == Some(2);
    assert b[3..][1..] == b[4..];
    assert CatWidth(b[3..]) == Some(3);
    assert b[2..][1..] == b[3..];
    assert CatWidth(b[2..]) == Some(5);
    assert b[1..][1..] == b[2..];
    assert CatWidth(b[1..]) == Some(6);
    assert CatWidth(b) == Some(8);
    if MatchCat(b, s) {
      CatMatchWidth(b, s);
    }
  }

  /** The time pattern accepts exactly what `ParseTime` reads. */
  lemma TimePatternMeaning(s: string)
    ensures s != "" && Matches(TimePattern, s) <==> ParseTime(s).Some?
  {
    var b := TimePattern.body;
    TimeLength(s);
    if |s| == 8 {
      HourAlternative(s[..2]);
      MinuteGroup(s[3..5]);
      MeridiemAlternative(s[6..]);
      assert s[..2][0] == s[0] && s[..2][1] == s[1];
      assert s[3..5][0] == s[3] && s[3..5][1] == s[4];
      assert b[1..][0] == b[1] && b[1..][1..] == b[2..];
      assert b[2..][0] == b[2] && b[2..][1..] == b[3..];
      assert b[3..][0] == b[3] && b[3..][1..] == b[4..];
      assert b[4..] == [b[4]];
      assert s[2..][..1] == s[2..3] && s[2..][1..] == s[3..];
      assert s[3..][..2] == s[3..5] && s[3..][2..] == s[5..];
      assert s[5..][..1] == s[5..6] && s[5..][1..] == s[6..];
      assert MatchCat(b, s) <==> MatchTerm(b[0], s[..2]) && MatchCat(b[1..], s[2..]);
      assert MatchCat(b[1..], s[2..]) <==> s[2..3] == ":" && MatchCat(b[2..], s[3..]);
      assert MatchCat(b[2..], s[3..]) <==> MatchTerm(b[2], s[3..5]) && MatchCat(b[3..], s[5..]);
      assert MatchCat(b[3..], s[5..]) <==> s[5..6] == " " && MatchCat(b[4..], s[6..]);
      assert MatchCat(b[4..], s[6..]) <==> MatchTerm(b[4], s[6..]);
      assert s[2..3] == ":" <==> s[2] == ':';
      assert s[5..6] == " " <==> s[5] == ' ';
    }
  }

  lemma PasswordClassHas(c: char)
    ensures PasswordClass.Has(c) <==> IsPasswordChar(c)
  {
    var cls := PasswordClass;
    var sp := Chars(Specials);
    if IsUpper(c) { assert cls.ranges[0].0 <= c <= cls.ranges[0].1; }
    else if IsLower(c) { assert cls.ranges[1].0 <= c <= cls.ranges[1].1; }
    else if Text.IsDigit(c) { assert cls.ranges[2].0 <= c <= cls.ranges[2].1; }
    else if c in Specials {
      assert sp.Has(c);
      var i :| 0 <= i < |sp.ranges| && sp.ranges[i].0 <= c <= sp.ranges[i].1;
      assert cls.ranges[3 + i] == sp.ranges[i];
    }
    if cls.Has(c) {
      var i :| 0 <= i < |cls.ranges| && cls.ranges[i].0 <= c <= cls.ranges[i].1;
      if i >= 3 {
        assert cls.ranges[i] == sp.ranges[i - 3];
        assert sp.Has(c);
      }
    }
  }

  /** On a string of password characters, which contains no line terminator,
      the lookahead `(?=.*[cls])` means some character is in the class. */
  lemma LookaheadOnPasswordChars(cls: CharClass, p: string)
    requires forall i :: 0 <= i < |p| ==> IsPasswordChar(p[i])
    ensures LookaheadHolds(cls, p) <==> exists i :: 0 <= i < |p| && cls.Has(p[i])
  {
    if i :| 0 <= i < |p| && cls.Has(p[i]) {
      assert forall j | 0 <= j < i :: !IsLineTerminator(p[j]) by {
        forall j | 0 <= j < i ensures !IsLineTerminator(p[j]) {
          assert IsPasswordChar(p[j]);
        }
      }
    }
  }

  lemma PasswordPatternMeaning(p: string)
    ensures p != "" && Matches(PasswordPattern, p) <==> IsStrongPassword(p)
  {
    var allChars := forall i :: 0 <= i < |p| ==> IsPasswordChar(p[i]);
    assert MatchCat(PasswordPattern.body, p) <==> |p| >= 8 && allChars by {
      forall i | 0 <= i < |p| ensures PasswordClass.Has(p[i]) <==> IsPasswordChar(p[i]) {
        PasswordClassHas(p[i]);
      }
    }
    if allChars {
      var la := PasswordPattern.lookaheads;
      LookaheadOnPasswordChars(la[0], p);
      LookaheadOnPasswordChars(la[1], p);
      LookaheadOnPasswordChars(la[2], p);
      LookaheadOnPasswordChars(la[3], p);
      forall c ensures Lower.Has(c) <==> IsLower(c) { SingleRange('a', 'z', c); }
      forall c ensures Upper.Has(c) <==> IsUpper(c) { SingleRange('A', 'Z', c); }
      forall c ensures Digit.Has(c) <==> Text.IsDigit(c) { SingleRange('0', '9', c); }
    }
  }

  lemma OtpPatternMeaning(code: string)
    ensures code != "" && Matches(OtpPattern, code) <==> |code| >= 1 && Text.AllDigits(code)
  {
    SingleMatch(Class(Digit, 1, None), code);
    forall i | 0 <= i < |code| ensures Digit.Has(code[i]) <==> Text.IsDigit(code[i]) {
      SingleRange('0', '9', code[i]);
    }
  }

  // ---------------------------------------------------------------------
  // Properties of the checks.

  /** `FormatTime` and `ParseTime` are inverse: every clock reading the
      pattern can express round-trips through its text. */
  lemma {:induction false} TimeRoundTrip(t: ClockText)
    requires t.hour < 24 && t.minute < 60
    ensures ParseTime(FormatTime(t)) == Some(t)
    ensures ValidateTimeFormat(FormatTime(t)).Pass?
  {
    var s := FormatTime(t);
    assert s[6..] == MeridiemText(t.meridiem);
    assert DigitValue(s[0]) * 10 + DigitValue(s[1]) == t.hour;
    assert DigitValue(s[3]) * 10 + DigitValue(s[4]) == t.minute;
  }

  lemma {:induction false} ParseFormat(s: string)
    requires ParseTime(s).Some?
    ensures FormatTime(ParseTime(s).value) == s
  {
    var t := ParseTime(s).value;
    var f := FormatTime(t);
    assert f[0] == s[0] && f[1] == s[1] && f[3] == s[3] && f[4] == s[4];
    assert f[6..] == s[6..];
    assert f == f[..6] + f[6..];
    assert s == s[..6] + s[6..];
  }

  /** The time check accepts hours the `AM`/`PM` notation cannot mean. */
  lemma TimeAcceptsTwentyFourHourFields()
    ensures ValidateTimeFormat("13:00 PM").Pass?
    ensures ValidateTimeFormat("00:30 AM").Pass?
    ensures ValidateTimeFormat("23:59 AM").Pass?
    ensures ValidateTimeFormat("24:00 PM").Fail?
    ensures ValidateTimeFormat("9:00 AM").Fail?
  {
    assert ParseTime("13:00 PM") == Some(ClockText(13, 0, PM));
    assert ParseTime("00:30 AM") == Some(ClockText(0, 30, AM));
    assert ParseTime("23:59 AM") == Some(ClockText(23, 59, AM));
  }

  /** A time that passes the format check always has length 8, so the slot
      screens' extra length check of 7 to 11 characters never fails after it. */
  lemma TimeLengthRuleRedundant(time: string)
    requires ValidateTimeFormat(time).Pass?
    ensures ValidateLength(time, 7, Some(11)).Pass?
  {
  }

  /** The empty string fails every length check, even a minimum of 0. */
  lemma EmptyFailsLength(min: nat, max: Option<nat>)
    ensures ValidateLength("", min, max).Fail?
  {
  }
}
