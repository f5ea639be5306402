/** The ordered rule runner shared by the slot use cases
    (`BaseSlotUseCase`), and the checks built on it.

    A rule's validator returns a boolean or throws. The validators the slot
    use cases plug in are the input validator's checks, which return `true`
    or throw their own 400 error, so a rule's own message is only reached by
    a validator that returns `false`, which none of them does. */
module SlotRules {

  import opened Outcome
  import opened Slots
  import Validators

  /** A validation rule: a validator that returns a boolean (`Ok`) or throws
      (`Err`), and the message and status thrown when it returns `false`. */
  datatype Rule<!T> = Rule(validator: T -> Result<bool>, message: string, status: int)

  /** What one rule does to a value it rejects. */
  function Rejection<T>(rule: Rule<T>, value: T): Check
  {
    match rule.validator(value)
    case Ok(b) => if b then Pass else Fail(Custom(rule.status, rule.message))
    case Err(e) => Fail(e)
  }

  /** `validateWithRules`: the rules run in order and the first one whose
      validator does not return `true` decides the outcome. */
  function ValidateWithRules<T>(value: T, rules: seq<Rule<T>>): (c: Check)
    ensures c.Pass? <==> forall i :: 0 <= i < |rules| ==> rules[i].validator(value) == Ok(true)
    ensures c.Fail? ==>
              exists i :: 0 <= i < |rules| && c == Rejection(rules[i], value) &&
                forall j :: 0 <= j < i ==> rules[j].validator(value) == Ok(true)
  {
    if |rules| == 0 then Pass
    else if rules[0].validator(value) != Ok(true) then Rejection(rules[0], value)
    else
      var c := ValidateWithRules(value, rules[1..]);
      assert forall i :: 1 <= i < |rules| ==> rules[i] == rules[1..][i - 1];
      assert c.Fail? ==>
               exists i :: 0 <= i < |rules| && c == Rejection(rules[i], value) &&
                 forall j :: 0 <= j < i ==> rules[j].validator(value) == Ok(true) by {
        if c.Fail? {
          var i :| 0 <= i < |rules[1..]| && c == Rejection(rules[1..][i], value) &&
                   forall j :: 0 <= j < i ==> rules[1..][j].validator(value) == Ok(true);
          assert c == Rejection(rules[i + 1], value);
        }
      }
      c
  }

  /** A validator that returns `true` or throws, seen as a rule's validator. */
  function FromCheck(c: Check): (r: Result<bool>)
    ensures r.Ok? <==> c.Pass?
    ensures r.Ok? ==> r.value
    ensures c.Fail? ==> r == Err(c.error)
  {
    match c
    case Pass => Ok(true)
    case Fail(e) => Err(e)
  }

  /** When every validator returns `true` or throws, a failure is always the
      first failing validator's own error, never a rule's message. */
  lemma {:induction false} RuleMessagesUnreachable<T>(value: T, rules: seq<Rule<T>>)
    requires forall i :: 0 <= i < |rules| ==> rules[i].validator(value) != Ok(false)
    ensures ValidateWithRules(value, rules).Fail? ==>
              exists i :: 0 <= i < |rules| && rules[i].validator(value).Err? &&
                ValidateWithRules(value, rules).error == rules[i].validator(value).error
  {
    var c := ValidateWithRules(value, rules);
    if c.Fail? {
      var i :| 0 <= i < |rules| && c == Rejection(rules[i], value) &&
               forall j :: 0 <= j < i ==> rules[j].validator(value) == Ok(true);
      assert rules[i].validator(value) != Ok(false);
    }
  }

  const TimeRuleMessage: string := "Invalid time format"
  const LengthRuleMessage: string := "Time string length out of bounds"
  const SlotIdsRuleMessage: string := "Invalid slot IDs format"
  const SlotIdRuleMessage: string := "Invalid slot ID format"

  /** The two rules every start time must pass: the time format, then a
      length of 7 to 11 characters. */
  function StartTimeRules(): seq<Rule<string>> {
    [ Rule(t => FromCheck(Validators.ValidateTimeFormat(t)), TimeRuleMessage, BadRequest),
      Rule(t => FromCheck(Validators.ValidateLength(t, 7, Some(11))), LengthRuleMessage, BadRequest) ]
  }

  /** A start time that is missing or empty. */
  predicate MissingStartTime(slot: SlotInput) {
    !Truthy(slot.startTime)
  }

  /** A start time the two rules accept. */
  predicate GoodStartTime(slot: SlotInput) {
    Truthy(slot.startTime) && Validators.ParseTime(slot.startTime.value).Some?
  }

  /** The error the start-time check throws for one slot, if any.
      `show` stands for `JSON.stringify`. */
  function CheckStartTime(slot: SlotInput, show: SlotInput -> string): (c: Check)
    ensures c.Pass? <==> GoodStartTime(slot)
    ensures MissingStartTime(slot) ==>
              c == Fail(Custom(BadRequest, "Missing startTime for slot: " + show(slot)))
    ensures !MissingStartTime(slot) && c.Fail? ==>
              c == Fail(Custom(BadRequest, Validators.TimeMessage))
  {
    if MissingStartTime(slot) then
      Fail(Custom(BadRequest, "Missing startTime for slot: " + show(slot)))
    else
      var t := slot.startTime.value;
      var rules := StartTimeRules();
      var c := ValidateWithRules(t, rules);
      assert Validators.ValidateTimeFormat(t).Pass? ==> Validators.ValidateLength(t, 7, Some(11)).Pass? by {
        if Validators.ValidateTimeFormat(t).Pass? {
          Validators.TimeLengthRuleRedundant(t);
        }
      }
      assert c.Fail? ==> c == Rejection(rules[0], t);
      c
  }

  /** `validateSlotStartTimes`: slots are checked in order and the first
      slot with a bad start time decides the error. */
  function ValidateSlotStartTimes(slots: seq<SlotInput>, show: SlotInput -> string): (c: Check)
    ensures c.Pass? <==> forall i :: 0 <= i < |slots| ==> GoodStartTime(slots[i])
    ensures c.Fail? ==>
              exists i :: 0 <= i < |slots| && c == CheckStartTime(slots[i], show) &&
                forall j :: 0 <= j < i ==> GoodStartTime(slots[j])
  {
    if |slots| == 0 then Pass
    else if CheckStartTime(slots[0], show).Fail? then CheckStartTime(slots[0], show)
    else
      var c := ValidateSlotStartTimes(slots[1..], show);
      FirstBadShifts(slots, show, c);
      c
  }

  /** The outcome of checking every slot but the first, when the first is
      good, is the outcome of checking them all. */
  lemma FirstBadShifts(slots: seq<SlotInput>, show: SlotInput -> string, c: Check)
    requires |slots| > 0 && GoodStartTime(slots[0])
    requires c.Pass? <==> forall i :: 0 <= i < |slots[1..]| ==> GoodStartTime(slots[1..][i])
    requires c.Fail? ==>
               exists i :: 0 <= i < |slots[1..]| && c == CheckStartTime(slots[1..][i], show) &&
                 forall j :: 0 <= j < i ==> GoodStartTime(slots[1..][j])
    ensures c.Pass? <==> forall i :: 0 <= i < |slots| ==> GoodStartTime(slots[i])
    ensures c.Fail? ==>
              exists i :: 0 <= i < |slots| && c == CheckStartTime(slots[i], show) &&
                forall j :: 0 <= j < i ==> GoodStartTime(slots[j])
  {
    assert forall i :: 1 <= i < |slots| ==> slots[i] == slots[1..][i - 1];
    if c.Fail? {
      var i :| 0 <= i < |slots[1..]| && c == CheckStartTime(slots[1..][i], show) &&
               forall j :: 0 <= j < i ==> GoodStartTime(slots[1..][j]);
      assert c == CheckStartTime(slots[i + 1], show);
    }
  }

  /** Whatever slot fails the start-time check, the error is a bad request. */
  lemma StartTimeErrorIsBadRequest(slots: seq<SlotInput>, show: SlotInput -> string)
    ensures ValidateSlotStartTimes(slots, show).Fail? ==>
              ValidateSlotStartTimes(slots, show).error.Custom? &&
              ValidateSlotStartTimes(slots, show).error.status == BadRequest
  {
    var c := ValidateSlotStartTimes(slots, show);
    if c.Fail? {
      var i :| 0 <= i < |slots| && c == CheckStartTime(slots[i], show) &&
               forall j :: 0 <= j < i ==> GoodStartTime(slots[j]);
    }
  }

  /** `validateSlotIds`: every id must be 24 hexadecimal digits; the error
      is the validator's own, not the rule's "Invalid slot IDs format". */
  function ValidateSlotIds(ids: seq<string>): (c: Check)
    ensures c.Pass? <==> forall i :: 0 <= i < |ids| ==> Validators.IsIdText(ids[i])
    ensures c.Fail? ==> c.error == Custom(BadRequest, Validators.IdMessage)
  {
    var rules := [Rule((v: seq<string>) => FromCheck(Validators.ValidateMultipleIds(v)), SlotIdsRuleMessage, BadRequest)];
    var c := ValidateWithRules(ids, rules);
    assert c.Fail? ==> c == Rejection(rules[0], ids);
    c
  }

  /** `validateSlotId`: the single id must be 24 hexadecimal digits. */
  function ValidateSlotId(id: string): (c: Check)
    ensures c.Pass? <==> Validators.IsIdText(id)
    ensures c.Fail? ==> c.error == Custom(BadRequest, Validators.IdMessage)
  {
    var rules := [Rule((v: string) => FromCheck(Validators.ValidateIdFormat(v)), SlotIdRuleMessage, BadRequest)];
    var c := ValidateWithRules(id, rules);
    assert c.Fail? ==> c == Rejection(rules[0], id);
    c
  }
}
