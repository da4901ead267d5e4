/** The contact form's four field checks, as functions from the live input
    value to the text they put in that field's error slot. */
module FieldRules {
  import opened Sequences
  import opened JsText
  import opened EmailPattern

  /** What an error slot shows. `NoError` is the empty text; the others stand
      for the page's fixed messages. */
  datatype ErrorText =
    | NoError
    | NameRequired | NameTooShort
    | EmailRequired | EmailMalformed
    | MessageRequired | MessageTooShort
    | ConsentRequired

  /** The form's fields, in document order. */
  datatype Field = Name | Email | Message | Privacy

  const NAME_MIN_LENGTH: nat := 2
  const MESSAGE_MIN_LENGTH: nat := 10

  /** `validateName`: the trimmed value must be non-empty and at least two code units long. */
  function NameError(value: JsString): (e: ErrorText) {
    var v := Trim(value);
    if v == [] then NameRequired
    else if |v| < NAME_MIN_LENGTH then NameTooShort
    else NoError
  }

  /** `validateEmail`: the trimmed value must be non-empty and match the address pattern. */
  function EmailError(value: JsString): (e: ErrorText) {
    var v := Trim(value);
    if v == [] then EmailRequired
    else if !IsEmailAddress(v) then EmailMalformed
    else NoError
  }

  /** `validateMessage`: the trimmed value must be non-empty and at least ten code units long. */
  function MessageError(value: JsString): (e: ErrorText) {
    var v := Trim(value);
    if v == [] then MessageRequired
    else if |v| < MESSAGE_MIN_LENGTH then MessageTooShort
    else NoError
  }

  /** `validatePrivacy`: the consent box must be checked. */
  function PrivacyError(checked: bool): (e: ErrorText) {
    if !checked then ConsentRequired else NoError
  }

  /** The name is missing exactly when it is all whitespace, accepted exactly
      when two non-whitespace code units span at least two positions, and
      otherwise too short. */
  lemma NameRule(value: JsString)
    ensures NameError(value) == NameRequired <==> AllWhitespace(value)
    ensures NameError(value) == NoError <==> NonBlankSpan(value, NAME_MIN_LENGTH)
    ensures NameError(value) == NameTooShort <==>
              !AllWhitespace(value) && !NonBlankSpan(value, NAME_MIN_LENGTH)
  {
    TrimEmpty(value);
    TrimmedLengthAtLeast(value, NAME_MIN_LENGTH);
  }

  /** The message is missing exactly when it is all whitespace, accepted exactly
      when two non-whitespace code units span at least ten positions, and
      otherwise too short. */
  lemma MessageRule(value: JsString)
    ensures MessageError(value) == MessageRequired <==> AllWhitespace(value)
    ensures MessageError(value) == NoError <==> NonBlankSpan(value, MESSAGE_MIN_LENGTH)
    ensures MessageError(value) == MessageTooShort <==>
              !AllWhitespace(value) && !NonBlankSpan(value, MESSAGE_MIN_LENGTH)
  {
    TrimEmpty(value);
    TrimmedLengthAtLeast(value, MESSAGE_MIN_LENGTH);
  }

  /** The email is missing exactly when it is all whitespace and accepted exactly
      when its trimmed value is matched by the regular expression; an accepted
      value then holds exactly one '@' and no inner whitespace. */
  lemma EmailRule(value: JsString)
    ensures EmailError(value) == EmailRequired <==> AllWhitespace(value)
    ensures EmailError(value) == NoError <==> MatchesEmailRegex(Trim(value))
    ensures EmailError(value) == NoError ==>
              Count(Trim(value), AT) == 1 &&
              forall k :: 0 <= k < |Trim(value)| ==> !IsWhitespace(Trim(value)[k])
  {
    var v := Trim(value);
    TrimEmpty(value);
    EmailPatternAgreement(v);
    if IsEmailAddress(v) {
      AcceptedAddressSingleAt(v);
      AcceptedAddressNoWhitespace(v);
    }
  }

  /** Boundaries of the name rule: one code unit is too short and two suffice;
      padding whitespace does not count. */
  lemma NameBoundaries()
    ensures NameError([LETTER_A]) == NameTooShort
    ensures NameError([SPACE, LETTER_A, SPACE]) == NameTooShort
    ensures NameError([LETTER_A, LETTER_B]) == NoError
    ensures NameError([SPACE, SPACE]) == NameRequired
  {
    TrimmedIsFixed([LETTER_A]);
    TrimmedIsFixed([LETTER_A, LETTER_B]);
    assert Trim([SPACE, LETTER_A, SPACE]) == Trim([LETTER_A, SPACE]) == Trim([LETTER_A]);
    TrimEmpty([SPACE, SPACE]);
  }

  /** Boundaries of the message rule: nine code units are too short and ten
      suffice, also with trailing whitespace. */
  lemma MessageBoundaries()
    ensures MessageError(Repeat(LETTER_A, 9)) == MessageTooShort
    ensures MessageError(Repeat(LETTER_A, 10)) == NoError
    ensures MessageError(Repeat(LETTER_A, 10) + [SPACE]) == NoError
  {
    TrimmedIsFixed(Repeat(LETTER_A, 9));
    TrimmedIsFixed(Repeat(LETTER_A, 10));
    var padded := Repeat(LETTER_A, 10) + [SPACE];
    assert padded[0] == LETTER_A && padded[..10] == Repeat(LETTER_A, 10);
  }

  /** `n` copies of the code unit `c`. */
  function Repeat(c: CodeUnit, n: nat): (s: JsString)
    ensures |s| == n && forall k :: 0 <= k < n ==> s[k] == c
  {
    seq(n, _ => c)
  }

  /** The error slots of the four fields. */
  datatype ErrorSlots = ErrorSlots(name: ErrorText, email: ErrorText, message: ErrorText, privacy: ErrorText)

  function SlotOf(slots: ErrorSlots, f: Field): (e: ErrorText) {
    match f
    case Name => slots.name
    case Email => slots.email
    case Message => slots.message
    case Privacy => slots.privacy
  }

  /** Position of a field in document order. */
  function Rank(f: Field): (n: nat) {
    match f
    case Name => 0
    case Email => 1
    case Message => 2
    case Privacy => 3
  }

  /** `form.querySelector('.form-error:not(:empty)')`: the field of the first
      non-empty error slot in document order, if any. */
  function FirstErrorField(slots: ErrorSlots): (r: Option<Field>) {
    if slots.name != NoError then Some(Name)
    else if slots.email != NoError then Some(Email)
    else if slots.message != NoError then Some(Message)
    else if slots.privacy != NoError then Some(Privacy)
    else None
  }

  /** The field found is the first one, in document order, whose slot is not
      empty; none is found exactly when all four slots are empty. */
  lemma FirstErrorFieldIsFirst(slots: ErrorSlots)
    ensures FirstErrorField(slots).None? <==> forall f: Field :: SlotOf(slots, f) == NoError
    ensures FirstErrorField(slots).Some? ==>
              var f := FirstErrorField(slots).value;
              SlotOf(slots, f) != NoError &&
              forall g: Field :: Rank(g) < Rank(f) ==> SlotOf(slots, g) == NoError
  {
    assert SlotOf(slots, Name) == slots.name && SlotOf(slots, Email) == slots.email;
    assert SlotOf(slots, Message) == slots.message && SlotOf(slots, Privacy) == slots.privacy;
  }

  /** The slots the four checks write for the given input values. */
  function CheckedSlots(name: JsString, email: JsString, message: JsString, consent: bool): (r: ErrorSlots) {
    ErrorSlots(NameError(name), EmailError(email), MessageError(message), PrivacyError(consent))
  }
}
