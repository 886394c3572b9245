// Form validators: src/utils/validation/*.ts and the legacy facade src/utils/validation.ts.
// Every validator returns at most one message key; `isValid` holds exactly when there is none.

module ValidationResults {
  import opened JsText

  datatype ValidationResult = ValidationResult(isValid: bool, errors: seq<string>)

  /** `{ isValid: errors.length === 0, errors }` */
  function FromErrors(errors: seq<string>): (r: ValidationResult)
    ensures r.errors == errors && (r.isValid <==> errors == [])
  {
    ValidationResult(|errors| == 0, errors)
  }

  /** A result built by FromErrors: the flag agrees with the list. */
  predicate Consistent(r: ValidationResult) {
    r.isValid <==> r.errors == []
  }

  const REQUIRED := "validation.required"
  const MAX_LENGTH := "validation.maxLength"
  const MIN_VALUE := "validation.minValue"
  const INVALID_DATE := "validation.invalidDate"
  const INVALID_TIME := "validation.invalidTime"
  const INVALID_EVENT_TOKEN := "validation.invalidEventToken"
  const INVALID_GAME_ID := "validation.invalidGameId"
  const INVALID_EMAIL := "validation.invalidEmail"

  // Limits from src/constants/index.ts
  const MAX_ACCOUNT_NAME_LENGTH := 100
  const MAX_GAME_NAME_LENGTH := 100
  const MIN_DAYS_OFFSET := 0

  /** One character of the class [a-zA-Z0-9_-] */
  predicate IsTokenChar(c: char) {
    'a' <= c <= 'z' || 'A' <= c <= 'Z' || '0' <= c <= '9' || c == '_' || c == '-'
  }

  /** The regular expression ^[a-zA-Z0-9_-]+$ */
  predicate IsToken(s: string) {
    |s| > 0 && forall i :: 0 <= i < |s| ==> IsTokenChar(s[i])
  }

  /** Some character of `s` is not white space: the opposite of `!s || s.trim().length === 0`. */
  predicate HasVisibleChar(s: string) {
    exists i :: 0 <= i < |s| && !IsSpace(s[i])
  }

  lemma BlankIffNoVisibleChar(s: string)
    ensures IsBlank(s) <==> !HasVisibleChar(s)
  {
    BlankIffAllSpace(s);
  }

  /** A text that matches ^[a-zA-Z0-9_-]+$ is never blank. */
  lemma TokenIsNotBlank(s: string)
    ensures IsToken(s) ==> !IsBlank(s)
  {
    BlankIffAllSpace(s);
    if IsToken(s) {
      assert !IsSpace(s[0]);
    }
  }

  /** Positions lo..hi-1 of `s` are decimal digits. */
  predicate DigitsIn(s: string, lo: int, hi: int)
    requires 0 <= lo <= hi <= |s|
  {
    forall i :: lo <= i < hi ==> IsDigit(s[i])
  }
}

module AccountValidation {
  import opened JsText
  import opened ValidationResults

  /** The regular expression ^\d{4}-\d{2}-\d{2}$ */
  predicate IsDateShape(s: string) {
    |s| == 10 && DigitsIn(s, 0, 4) && s[4] == '-' && DigitsIn(s, 5, 7) && s[7] == '-' && DigitsIn(s, 8, 10)
  }

  /** The regular expression ^\d{2}:\d{2}(:\d{2})?$ */
  predicate IsTimeShape(s: string) {
    (|s| == 5 || |s| == 8) && DigitsIn(s, 0, 2) && s[2] == ':' && DigitsIn(s, 3, 5)
    && (|s| == 8 ==> s[5] == ':' && DigitsIn(s, 6, 8))
  }

  function ValidateAccountName(name: string): (r: ValidationResult)
    ensures Consistent(r) && |r.errors| <= 1
    ensures r.isValid <==> HasVisibleChar(name) && |name| <= MAX_ACCOUNT_NAME_LENGTH
    ensures !HasVisibleChar(name) ==> r.errors == [REQUIRED]
    ensures HasVisibleChar(name) && |name| > MAX_ACCOUNT_NAME_LENGTH ==> r.errors == [MAX_LENGTH]
  {
    BlankIffNoVisibleChar(name);
    if IsBlank(name) then FromErrors([REQUIRED])
    else if |name| > MAX_ACCOUNT_NAME_LENGTH then FromErrors([MAX_LENGTH])
    else FromErrors([])
  }

  /** `dateParses` stands for `!isNaN(new Date(date).getTime())`, which the model does not compute. */
  function ValidateStartDate(date: string, dateParses: bool): (r: ValidationResult)
    ensures Consistent(r) && |r.errors| <= 1
    ensures r.isValid <==> IsDateShape(date) && dateParses
    ensures date == "" ==> r.errors == [REQUIRED]
    ensures date != "" && !IsDateShape(date) ==> r.errors == [INVALID_DATE]
  {
    if date == "" then FromErrors([REQUIRED])
    else if !IsDateShape(date) then FromErrors([INVALID_DATE])
    else if !dateParses then FromErrors([INVALID_DATE])
    else FromErrors([])
  }

  function ValidateStartTime(time: string): (r: ValidationResult)
    ensures Consistent(r) && |r.errors| <= 1
    ensures r.isValid <==> IsTimeShape(time)
    ensures time == "" ==> r.errors == [REQUIRED]
    ensures time != "" && !IsTimeShape(time) ==> r.errors == ["validation.invalidTime"]
  {
    if time == "" then FromErrors([REQUIRED])
    else if !IsTimeShape(time) then FromErrors([INVALID_TIME])
    else FromErrors([])
  }

  function ValidateRequestTemplate(template: string): (r: ValidationResult)
    ensures Consistent(r) && |r.errors| <= 1
    ensures r.isValid <==> HasVisibleChar(template)
    ensures !r.isValid ==> r.errors == [REQUIRED]
  {
    BlankIffNoVisibleChar(template);
    if IsBlank(template) then FromErrors([REQUIRED]) else FromErrors([])
  }

  /** The start-time check has no range check: any two digits pass, "99:99" included. */
  lemma StartTimeHasNoRangeCheck(h: nat, m: nat)
    requires h < 100 && m < 100
    ensures ValidateStartTime(Pad2(h) + ":" + Pad2(m)).isValid
  {
    Pad2Small(h);
    Pad2Small(m);
  }
}

module LevelValidation {
  import opened JsText
  import opened ValidationResults

  function ValidateLevelName(name: string): (r: ValidationResult)
    ensures Consistent(r) && |r.errors| <= 1
    ensures r.isValid <==> HasVisibleChar(name)
    ensures !r.isValid ==> r.errors == [REQUIRED]
  {
    BlankIffNoVisibleChar(name);
    if IsBlank(name) then FromErrors([REQUIRED]) else FromErrors([])
  }

  function ValidateEventToken(token: string): (r: ValidationResult)
    ensures Consistent(r) && |r.errors| <= 1
    ensures r.isValid <==> IsToken(token)
    ensures !HasVisibleChar(token) ==> r.errors == [REQUIRED]
    ensures HasVisibleChar(token) && !IsToken(token) ==> r.errors == [INVALID_EVENT_TOKEN]
  {
    BlankIffNoVisibleChar(token);
    TokenIsNotBlank(token);
    if IsBlank(token) then FromErrors([REQUIRED])
    else if !IsToken(token) then FromErrors([INVALID_EVENT_TOKEN])
    else FromErrors([])
  }

  function ValidateDaysOffset(daysOffset: int): (r: ValidationResult)
    ensures Consistent(r) && |r.errors| <= 1
    ensures r.isValid <==> daysOffset >= 0
    ensures !r.isValid ==> r.errors == [MIN_VALUE]
  {
    if daysOffset < MIN_DAYS_OFFSET then FromErrors([MIN_VALUE]) else FromErrors([])
  }

  function ValidateTimeSpent(timeSpent: int): (r: ValidationResult)
    ensures Consistent(r) && |r.errors| <= 1
    ensures r.isValid <==> timeSpent >= 1
    ensures !r.isValid ==> r.errors == [MIN_VALUE]
  {
    if timeSpent <= 0 then FromErrors([MIN_VALUE]) else FromErrors([])
  }

  function ValidateIsBonus(isBonus: bool): (r: ValidationResult)
    ensures r.isValid && r.errors == []
  {
    ValidationResult(true, [])
  }
}

module PurchaseEventValidation {
  import opened JsText
  import opened ValidationResults

  function ValidatePurchaseEventName(name: string): (r: ValidationResult)
    ensures Consistent(r) && |r.errors| <= 1
    ensures r.isValid <==> HasVisibleChar(name)
    ensures !r.isValid ==> r.errors == [REQUIRED]
  {
    BlankIffNoVisibleChar(name);
    if IsBlank(name) then FromErrors([REQUIRED]) else FromErrors([])
  }

  function ValidateEventToken(token: string): (r: ValidationResult)
    ensures Consistent(r) && |r.errors| <= 1
    ensures r.isValid <==> IsToken(token)
    ensures !HasVisibleChar(token) ==> r.errors == [REQUIRED]
    ensures HasVisibleChar(token) && !IsToken(token) ==> r.errors == [INVALID_EVENT_TOKEN]
  {
    BlankIffNoVisibleChar(token);
    TokenIsNotBlank(token);
    if IsBlank(token) then FromErrors([REQUIRED])
    else if !IsToken(token) then FromErrors([INVALID_EVENT_TOKEN])
    else FromErrors([])
  }

  function ValidateMaxDaysOffset(maxDaysOffset: int): (r: ValidationResult)
    ensures Consistent(r) && |r.errors| <= 1
    ensures r.isValid <==> maxDaysOffset >= 0
    ensures !r.isValid ==> r.errors == [MIN_VALUE]
  {
    if maxDaysOffset < MIN_DAYS_OFFSET then FromErrors([MIN_VALUE]) else FromErrors([])
  }

  function ValidateTimeSpent(timeSpent: int): (r: ValidationResult)
    ensures Consistent(r) && |r.errors| <= 1
    ensures r.isValid <==> timeSpent >= 1
    ensures !r.isValid ==> r.errors == [MIN_VALUE]
  {
    if timeSpent <= 0 then FromErrors([MIN_VALUE]) else FromErrors([])
  }

  function ValidateIsRestricted(isRestricted: bool): (r: ValidationResult)
    ensures r.isValid && r.errors == []
  {
    ValidationResult(true, [])
  }
}

module GameValidation {
  import opened JsText
  import opened ValidationResults

  function ValidateGameName(name: string): (r: ValidationResult)
    ensures Consistent(r) && |r.errors| <= 1
    ensures r.isValid <==> HasVisibleChar(name) && |name| <= MAX_GAME_NAME_LENGTH
    ensures !HasVisibleChar(name) ==> r.errors == [REQUIRED]
    ensures HasVisibleChar(name) && |name| > MAX_GAME_NAME_LENGTH ==> r.errors == [MAX_LENGTH]
  {
    BlankIffNoVisibleChar(name);
    if IsBlank(name) then FromErrors([REQUIRED])
    else if |name| > MAX_GAME_NAME_LENGTH then FromErrors([MAX_LENGTH])
    else FromErrors([])
  }

  function ValidateGameId(id: string): (r: ValidationResult)
    ensures Consistent(r) && |r.errors| <= 1
    ensures r.isValid <==> IsToken(id)
    ensures !HasVisibleChar(id) ==> r.errors == [REQUIRED]
    ensures HasVisibleChar(id) && !IsToken(id) ==> r.errors == [INVALID_GAME_ID]
  {
    BlankIffNoVisibleChar(id);
    TokenIsNotBlank(id);
    if IsBlank(id) then FromErrors([REQUIRED])
    else if !IsToken(id) then FromErrors([INVALID_GAME_ID])
    else FromErrors([])
  }
}
