# Corporate site front-end: event-handler model

This project models the event-handler logic of the site's `script.js` in Dafny. The browser's DOM becomes a few booleans, strings, error kinds and a list of body children. Most handlers are methods on a small class, and the decisions they take are pure functions; the in-page link handler is a function. The proved properties follow.

- **Contact form.** There are four field checks: name, email, message and privacy consent.
  - Each check trims the value with `String.prototype.trim`, tests for empty, then applies a length bound or the address pattern `^[^\s@]+@[^\s@]+\.[^\s@]+$`.
  - Each check writes only its own error slot and `error` class, and returns whether it passed.
  - The submit handler runs all four, then either shows the success notification and resets the form, or picks the first field whose error slot is not empty.
- **Text.** Strings are sequences of UTF-16 code units. This is what `.length` counts and what a regular expression without the `u` flag reads.
  - `trim` and the class `\s` share one whitespace set: ECMAScript's WhiteSpace and LineTerminator code points.
  - The address pattern is defined twice, and the two definitions are proved to accept the same strings:
    - an explicit predicate that splits at the first '@';
    - the regular expression's own reading, as a concatenation of runs.
- **Success notification.** `showSuccessMessage` removes the first existing `.success-message` from the body, then appends a new message and a new overlay. Only the message is de-duplicated, so overlays accumulate.
- **FAQ accordion.** The model holds an array of `active` flags. A click closes every item, then reopens the clicked item only if it was closed.
- **Hamburger menu.** Three flags: the button's `active`, the navigation's `active`, and the body's scroll lock. There are three transitions: toggle, navigation-link click, and resize.
- **Scroll chrome.**
  - The header's `scrolled` class is set when `scrollY > 100`.
  - The back-to-top button's `visible` class is set when `scrollY > 500`.
  - The back-to-top click scrolls to the top.
  - An in-page link's smooth-scroll target is `offsetTop - headerHeight - 20`. The bare `#` scrolls to the top.

Files: `sequences.dfy`, `js_text.dfy`, `email_pattern.dfy`, `field_rules.dfy`, `notification.dfy`, `contact_form.dfy`, `faq_accordion.dfy`, `hamburger_menu.dfy`, `scroll_chrome.dfy`.

Two consequences of the code are worth stating:
- `[^\s@]+` needs a non-empty local part, so `@b.c` is rejected (`EmailPattern.RejectsMalformedAddresses`).
- Only the first `.success-message` is removed, so two shows leave one message and two overlays (`Notification.ShownTwice`).

## Model

| member | source | states |
|---|---|---|
| Sequences.FirstIndex | script.js:281 | `querySelector` in document order: the result is absent exactly when no element matches; otherwise it is a matching position with no match before it |
| Sequences.RemoveFirstCount | script.js:281-284 | removing the first match lowers that element's count by one when it was present and leaves every other count unchanged |
| JsText.TrimShape | script.js:214 | the trimmed value is the infix of the input at `TrimOffset`, only whitespace lies outside it, and a non-empty result neither starts nor ends with whitespace |
| JsText.TrimEmpty | script.js:214-216 | trimming gives the empty string exactly when the value is all whitespace |
| JsText.TrimmedLengthAtLeast | script.js:220 | the trimmed length is at least n exactly when two non-whitespace code units span at least n positions |
| JsText.TrimIdempotent | script.js:214 | trimming twice is the same as trimming once |
| JsText.TrimmedIsFixed | script.js:214 | a value with non-whitespace ends is its own trim |
| EmailPattern.EmailPatternAgreement | script.js:233 | the explicit first-'@' predicate accepts exactly the strings the regular expression matches |
| EmailPattern.AcceptedAddressSingleAt | script.js:233 | an accepted address contains exactly one '@' |
| EmailPattern.AcceptedAddressNoWhitespace | script.js:233 | an accepted address contains no whitespace and does not start with '@' |
| EmailPattern.AcceptsShortAddress | script.js:233 | "a@b.c" is accepted |
| EmailPattern.RejectsMalformedAddresses | script.js:233 | "a@b", "@b.c", "a b@c.d" and "a@b@c.d" are rejected |
| FieldRules.NameRule | script.js:213-229 | the name is "required" exactly when it is all whitespace, accepted exactly when its non-blank span is at least 2, and "too short" otherwise |
| FieldRules.EmailRule | script.js:231-248 | the email is "required" exactly when it is all whitespace and accepted exactly when its trimmed value matches the regular expression; an accepted value has one '@' and no whitespace |
| FieldRules.MessageRule | script.js:250-266 | the message is "required" exactly when it is all whitespace, accepted exactly when its non-blank span is at least 10, and "too short" otherwise |
| FieldRules.NameBoundaries | script.js:220 | "a" and " a " are too short, "ab" is accepted, and two spaces are "required" |
| FieldRules.MessageBoundaries | script.js:257 | nine code units are too short; ten are accepted, also with a trailing space |
| FieldRules.FirstErrorFieldIsFirst | script.js:205-207 | the focused field is the first field, in document order, whose slot is not empty; there is none exactly when all four slots are empty |
| Notification.ShownMessageCount | script.js:281-310 | after a show, the body holds exactly one success message whenever it held at most one before |
| Notification.ShownOverlayCount | script.js:326 | each show adds one overlay and removes none |
| Notification.ShownKeepsPage | script.js:279-326 | a show keeps the count of every other child of the body |
| Notification.RemoveFirstKeepsPage | script.js:281-284 | removing the existing success message leaves the other children of the body, in order, as they were |
| Notification.ShownKeepsPageOrder | script.js:279-326 | a show leaves the other children of the body in place: the same elements in the same order |
| Notification.ShownTwice | script.js:279-326 | two shows on a clean page leave one message and two overlays |
| ContactForm.Form.constructor | script.js:168-185 | the form as loaded: the given values, four empty slots, no `error` class, no notification |
| ContactForm.Form.ValidateName | script.js:213-229 | writes the name slot as the name rule gives it, sets the `error` class exactly when the slot is not empty, returns true exactly when the slot is empty, and changes no other field |
| ContactForm.Form.ValidateEmail | script.js:231-248 | the same for the email field under the email rule |
| ContactForm.Form.ValidateMessage | script.js:250-266 | the same for the message field under the message rule |
| ContactForm.Form.ValidatePrivacy | script.js:268-276 | writes the consent slot only, never a class, and returns true exactly when the box is checked |
| ContactForm.Form.ShowSuccessMessage | script.js:279-326 | the body becomes the old body without its first success message, followed by a new message and a new overlay |
| ContactForm.Form.Reset | script.js:202 | the inputs return to empty and the box to unchecked |
| ContactForm.Form.RunChecks | script.js:191-197 | all four checks run, so all four slots hold the rules' verdicts on the current values; the result is their conjunction |
| ContactForm.Form.Submit | script.js:188-209 | all four slots are refreshed. When all are empty, the inputs are reset and exactly one success message is shown. Otherwise inputs and body are unchanged and the focus goes to the first non-empty slot's field. The mark invariant and the single-message invariant are kept |
| FaqAccordion.ClickSpec | script.js:147-160 | after a click on item i, every other item is closed and item i is open exactly when it was closed before |
| FaqAccordion.ClickOpenCount | script.js:147-160 | after any click at most one item is open: none if the clicked item was open, that item otherwise |
| FaqAccordion.ClickTwice | script.js:147-160 | clicking an item twice closes all others and restores that item, so an item opened by the first click ends closed |
| FaqAccordion.ClickOther | script.js:147-160 | clicking a second item after the first leaves only the second open |
| FaqAccordion.Accordion.constructor | script.js:142 | one flag per FAQ item, in document order |
| FaqAccordion.Accordion.Click | script.js:147-160 | the flag array becomes `AfterClick` of its old contents |
| HamburgerMenu.ResizeBoundary | script.js:64 | a resize to 768 keeps the menu and 769 closes it |
| HamburgerMenu.Menu.constructor | script.js:35-39 | the menu as loaded: closed and unlocked |
| HamburgerMenu.Menu.Toggle | script.js:41-51 | both `active` classes flip, the lock follows the navigation, and mirrored flags stay mirrored |
| HamburgerMenu.Menu.NavLinkClick | script.js:54-60 | all three flags end closed and unlocked |
| HamburgerMenu.Menu.Resize | script.js:63-69 | above 768 all three flags end closed; at or below 768 nothing changes; mirrored flags stay mirrored |
| ScrollChrome.HeaderThreshold | script.js:23 | the header is marked strictly past 100 (100 is not, 101 is), and scrolling further never unmarks it |
| ScrollChrome.BackToTopThreshold | script.js:356 | the button shows strictly past 500, scrolling further never hides it, and it shows only when the header is marked |
| ScrollChrome.Chrome.constructor | script.js:19-22 | the page as loaded at the top: neither class is set |
| ScrollChrome.Chrome.HeaderOnScroll | script.js:22-28 | the header's `scrolled` class is set exactly when the position is past the header threshold |
| ScrollChrome.Chrome.BackToTopOnScroll | script.js:355-361 | the button's `visible` class is set exactly when the position is past the button threshold |
| ScrollChrome.Chrome.OnScroll | script.js:22-28 | one scroll event runs both listeners, and the button is never visible under an unmarked header |
| ScrollChrome.AnchorClickSpec | script.js:80-105 | a click is intercepted exactly when it requests a scroll; the bare '#' goes to 0; any other link is intercepted exactly when its target exists, and the element's `offsetTop` then lies `headerHeight + 20` below the requested `top` |

## Left out

- Element lookup and listener registration (script.js:5-13 and the `getElementById`/`querySelectorAll` calls): every element is assumed to exist, as the code assumes.
- The fade-in `IntersectionObserver` (script.js:115-135): a browser API with fractional thresholds and root margins.
- The notification's timed auto-dismiss (script.js:329-337) and the overlay's click-to-dismiss (script.js:340-343). Both are asynchronous and remove one particular pair of elements, so they need element identity and a scheduler.
- `debounce` and its empty scroll callback (script.js:376-394): timer scheduling with no effect on state.
- Inline styles, the notification's markup and the injected `<style>` block (script.js:289-308, 315-324, 400-426): presentation only.
- The Japanese message texts: each is one case of `FieldRules.ErrorText`, and `NoError` stands for the empty text.
- `window.scrollTo`, `focus()` and the smooth animation: the model returns the requested scroll position and the field to focus instead of performing them.
- The submit handler's `e.preventDefault()` (script.js:189) always runs. The model has no page navigation, so there is nothing for it to prevent.
- ContactForm.Form.Submit: returns the field whose error slot comes first. It does not model `previousElementSibling`, that is, which element of the page's markup receives focus.
- ContactForm.Form.Reset: assumes the markup's defaults are empty inputs and an unchecked box. It does not model the form's other controls, which `form.reset()` also resets.
- ContactForm.Form.ShowSuccessMessage: searches only the children of `document.body`. `querySelector` searches the whole document, but the page adds success messages only to the body.
- The back-to-top button's click handler (script.js:364-369) has no state and no member of its own: it requests a smooth scroll to 0, the same request `ScrollChrome.AnchorClick` gives for a bare '#' link.
- ScrollChrome.AnchorClick: returns the requested `top`, which may be negative. The browser's clamping of the scroll position is not modelled.
- Scroll positions are real numbers. The model does not capture floating-point rounding of `scrollY`. `offsetTop` and `offsetHeight` are integers.
