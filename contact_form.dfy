/** The contact form of `initContactForm`: four inputs, their error slots and
    `error` marks, and the children of `document.body` that the success
    notification adds to. Each validator writes only its own field's slot and
    mark; submit runs all four and then either resets the inputs and shows the
    notification or asks for focus on the first field with an error. */
module ContactForm {
  import opened Sequences
  import opened JsText
  import opened FieldRules
  import opened Notification

  class Form {
    // The live input values.
    var name: JsString
    var email: JsString
    var message: JsString
    var privacyChecked: bool

    // The text of each field's error slot.
    var nameError: ErrorText
    var emailError: ErrorText
    var messageError: ErrorText
    var privacyError: ErrorText

    // Whether each text input carries the `error` class (the consent box has none).
    var nameMarked: bool
    var emailMarked: bool
    var messageMarked: bool

    // The children of `document.body`.
    var body: seq<BodyElement>

    /** Each `error` mark is present exactly when its slot shows a message, and
        the page shows at most one success message. */
    ghost predicate Valid()
      reads this
    {
      nameMarked == (nameError != NoError) &&
      emailMarked == (emailError != NoError) &&
      messageMarked == (messageError != NoError) &&
      Count(body, SuccessMessage) <= 1
    }

    function Slots(): (r: ErrorSlots)
      reads this
    {
      ErrorSlots(nameError, emailError, messageError, privacyError)
    }

    /** The page as loaded: the given values, empty slots, no marks, no notification. */
    constructor (name: JsString, email: JsString, message: JsString, privacyChecked: bool, page: seq<BodyElement>)
      requires SuccessMessage !in page
      ensures Valid()
      ensures this.name == name && this.email == email && this.message == message
      ensures this.privacyChecked == privacyChecked && body == page
      ensures Slots() == ErrorSlots(NoError, NoError, NoError, NoError)
    {
      this.name, this.email, this.message, this.privacyChecked := name, email, message, privacyChecked;
      nameError, emailError, messageError, privacyError := NoError, NoError, NoError, NoError;
      nameMarked, emailMarked, messageMarked := false, false, false;
      body := page;
      CountZero(page, SuccessMessage);
    }

    /** `validateName`, also run when the name input loses focus. */
    method ValidateName() returns (valid: bool)
      modifies this`nameError, this`nameMarked
      ensures nameError == NameError(name)
      ensures valid <==> nameError == NoError
      ensures nameMarked == !valid
    {
      var value := Trim(name);
      if value == [] {
        nameError, nameMarked, valid := NameRequired, true, false;
      } else if |value| < NAME_MIN_LENGTH {
        nameError, nameMarked, valid := NameTooShort, true, false;
      } else {
        nameError, nameMarked, valid := NoError, false, true;
      }
    }

    /** `validateEmail`, also run when the email input loses focus. */
    method ValidateEmail() returns (valid: bool)
      modifies this`emailError, this`emailMarked
      ensures emailError == EmailError(email)
      ensures valid <==> emailError == NoError
      ensures emailMarked == !valid
    {
      var value := Trim(email);
      if value == [] {
        emailError, emailMarked, valid := EmailRequired, true, false;
      } else if !EmailPattern.IsEmailAddress(value) {
        emailError, emailMarked, valid := EmailMalformed, true, false;
      } else {
        emailError, emailMarked, valid := NoError, false, true;
      }
    }

    /** `validateMessage`, also run when the message input loses focus. */
    method ValidateMessage() returns (valid: bool)
      modifies this`messageError, this`messageMarked
      ensures messageError == MessageError(message)
      ensures valid <==> messageError == NoError
      ensures messageMarked == !valid
    {
      var value := Trim(message);
      if value == [] {
        messageError, messageMarked, valid := MessageRequired, true, false;
      } else if |value| < MESSAGE_MIN_LENGTH {
        messageError, messageMarked, valid := MessageTooShort, true, false;
      } else {
        messageError, messageMarked, valid := NoError, false, true;
      }
    }

    /** `validatePrivacy`, also run when the consent box changes; it writes the
        slot only, never a class. */
    method ValidatePrivacy() returns (valid: bool)
      modifies this`privacyError
      ensures privacyError == PrivacyError(privacyChecked)
      ensures valid <==> privacyChecked
      ensures valid <==> privacyError == NoError
    {
      if !privacyChecked {
        privacyError, valid := ConsentRequired, false;
      } else {
        privacyError, valid := NoError, true;
      }
    }

    /** `showSuccessMessage`: drop the first existing message, then append a new
        message and a new overlay. */
    method ShowSuccessMessage()
      modifies this`body
      ensures body == Shown(old(body))
    {
      var existing := FirstIndex(body, SuccessMessage);
      if existing.Some? {
        var i := existing.value;
        body := body[..i] + body[i + 1..];
      }
      body := body + [SuccessMessage];
      body := body + [SuccessOverlay];
    }

    /** `form.reset()`: the inputs return to their (empty, unchecked) defaults. */
    method Reset()
      modifies this`name, this`email, this`message, this`privacyChecked
      ensures name == [] && email == [] && message == [] && !privacyChecked
    {
      name, email, message, privacyChecked := [], [], [], false;
    }

    /** The four checks of the submit handler, run one after the other without
        short-circuiting, so that every slot and mark is refreshed; the result is
        their conjunction. */
    method RunChecks() returns (allValid: bool)
      modifies this`nameError, this`emailError, this`messageError, this`privacyError
      modifies this`nameMarked, this`emailMarked, this`messageMarked
      ensures Slots() == CheckedSlots(name, email, message, privacyChecked)
      ensures nameMarked == (nameError != NoError) && emailMarked == (emailError != NoError)
      ensures messageMarked == (messageError != NoError)
      ensures allValid <==> Slots() == ErrorSlots(NoError, NoError, NoError, NoError)
    {
      var nameValid := ValidateName();
      var emailValid := ValidateEmail();
      var messageValid := ValidateMessage();
      var privacyValid := ValidatePrivacy();
      allValid := nameValid && emailValid && messageValid && privacyValid;
    }

    /** The submit handler. All four checks run on the submitted values, so all
        four slots are refreshed. When all pass, the notification is shown and
        the inputs are reset; otherwise nothing else changes and the result is
        the field to focus: the first, in document order, whose slot is not
        empty. */
    method Submit() returns (focus: Option<Field>)
      requires Valid()
      modifies this
      ensures Valid()
      ensures Slots() == CheckedSlots(old(name), old(email), old(message), old(privacyChecked))
      ensures focus.None? <==> Slots() == ErrorSlots(NoError, NoError, NoError, NoError)
      ensures focus.None? ==>
                name == [] && email == [] && message == [] && !privacyChecked &&
                body == Shown(old(body)) && Count(body, SuccessMessage) == 1
      ensures focus.Some? ==>
                name == old(name) && email == old(email) && message == old(message) &&
                privacyChecked == old(privacyChecked) && body == old(body) &&
                focus == FirstErrorField(Slots())
    {
      var allValid := RunChecks();
      if allValid {
        ShownMessageCount(body);
        ShowSuccessMessage();
        Reset();
        focus := None;
      } else {
        focus := FirstErrorField(Slots());
      }
    }
  }
}
