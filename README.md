# Portfolio page script: a verified model

This project models the interactive core of `script.js`, the script of a personal
portfolio page, and proves what its handlers guarantee. It covers five parts:

- **Contact form.** The submit handler runs four field checks, one of them an
  e-mail pattern. It then either shows the errors or hands the trimmed values to
  `submitForm`, which shows a sending state, then a thank-you notice, then clears it.
  - `text.dfy` is the whitespace and `trim` of ECMAScript.
  - `email.dfy` is the pattern `^[^\s@]+@[^\s@]+\.[^\s@]+$`.
  - `validation.dfy` is the pure decision.
  - `contact_form.dfy` is the form as a class whose methods are the handler and the two timers.
  - `notice.dfy` is the notice text.
- **Portfolio filter** (`portfolio_filter.dfy`). A click on a filter button updates
  the buttons and the cards in place. It is a method over two arrays, proved against
  the functions `Activated` and `Filtered`.
- **Case-study modal** (`case_study_modal.dfy`). Open, close, and the three close
  triggers, as a class over the modal's class, its `aria-hidden`, its body and the
  page scroll lock.
- **Mobile navigation** (`navigation.dfy`). The toggle, link clicks and Escape, as a
  class over `aria-expanded` and the menu's `open` class.
- **Profile photo** (`photo_upload.dfy`). File choice, drop and the restore at page
  load, as a class over the photo and the storage slot.

## Behaviour worth noting

- **Padded e-mail address.** The emptiness test trims `emailInput.value`, but the
  pattern is tested on the value untrimmed. So `" a@b.com "` is refused with
  "Please enter a valid email address", although its trimmed value matches.
  `Validation.PaddedAddressIsInvalid` states this for blanks at either end or both.
  The model takes `.value` as the browser delivers it to the script. Markup outside
  `script.js` (an `<input type="email">`, for instance) can already strip
  surrounding ASCII blanks before the handler sees them.
- **The `"all"` filter.** Every card is selected by exact equality with `"all"`.
  A button without `data-filter` matches exactly the cards without `data-category`,
  because `null === null`.

Calls into the browser are parameters:

- A `localStorage` read or write that throws is the `readOk` or `writeOk` flag.
- The click target is a `ClickTarget`.
- A key is its `key` string.

## Model

| member | source | states |
|---|---|---|
| Text.IsWs | script.js:297 | the ECMAScript WhiteSpace and LineTerminator set. It holds the characters `trim` removes and the ones the regular expression's `\s` (line 303) matches, and neither `@` nor `.` is in it |
| Text.TrimStart | script.js:297 | the leading-blank part of `trim`: the result is empty only for an all-blank string, and otherwise starts at a non-blank character of the input |
| Text.TrimEnd | script.js:297 | the trailing-blank part of `trim`: the result is empty only for an all-blank string, and otherwise ends at a non-blank character |
| Text.Trim | script.js:297 | `value.trim()` is empty exactly when the value is all whitespace, is never longer, and neither starts nor ends with whitespace |
| Text.TrimStartSkips | script.js:297 | trimming the start skips exactly a blank prefix and stops at the first non-blank character |
| Text.TrimEndSkips | script.js:297 | trimming the end skips exactly a blank suffix |
| Text.TrimOfPadded | script.js:297 | for any blank prefix, tight middle and blank suffix, `trim` returns the middle |
| Text.TrimIdempotent | script.js:346-351 | trimming a trimmed value changes nothing |
| Text.TrimOfTight | script.js:346-351 | a value with no blank at either end is its own trim |
| EmailAddress.EmailPattern | script.js:303 | `emailRegex.test(value)`, the test at line 307. Any value it accepts has at least five characters. `EmailPatternIsRegex` proves it equals the language of the regular expression |
| EmailAddress.AllPlainSplit | script.js:303 | a concatenation is in the class `[^\s@]*` exactly when both parts are |
| EmailAddress.PatternInRegex | script.js:303 | every value the handler's test accepts is local part, `@`, label, `.`, label, each non-empty and free of `@` and whitespace |
| EmailAddress.ConcatenationMatches | script.js:303 | every such concatenation is accepted |
| EmailAddress.RegexInPattern | script.js:303 | every string in the language of the regular expression is accepted |
| EmailAddress.EmailPatternIsRegex | script.js:303 | the test accepts exactly the language of the regular expression (both directions) |
| EmailAddress.EmailPatternHasNoWs | script.js:303 | an accepted address holds no whitespace, so trimming leaves it unchanged |
| EmailAddress.EmailPatternSingleAt | script.js:303 | an accepted address has exactly one `@`, with a non-empty local part before it and a dotted domain after it |
| EmailAddress.AcceptsPlainAddress | script.js:303 | `"a@b.com"` is accepted |
| EmailAddress.RejectsMissingDot | script.js:303 | `"a@b"` is refused: its domain has no dot |
| EmailAddress.PaddedNeverMatches | script.js:303 | an address with whitespace at either end is refused, because the pattern is anchored |
| EmailAddress.RejectsPaddedAddress | script.js:303 | `" a@b.com "` is refused |
| Validation.Validate | script.js:293-322 | all four checks run. A field is in the error map exactly when it fails its check, with its own message. A blank e-mail is "missing"; otherwise an address the pattern refuses (untrimmed) is "invalid" |
| Validation.Decide | script.js:325-351 | the form is submitted exactly when the error map is empty, and then with the four trimmed values. These are non-empty, and the address is the one typed and matches the pattern. Otherwise the decision carries the error map |
| Validation.Trimmed | script.js:346-351 | the payload object. Each of the four values starts and ends with a non-blank character (or is empty) and is no longer than what was typed |
| Validation.MessagesAreNonEmpty | script.js:325-341 | every recorded error has a non-empty message, so the handler's `if (errors.x)` tests see all of them |
| Validation.ChecksAreIndependent | script.js:296-322 | a field's verdict and message depend on that field's value alone |
| Validation.EmptyFieldsReported | script.js:293-322 | leaving any subset of the fields empty, the rest acceptable, reports exactly that subset |
| Validation.EmptyFieldsBlockSubmission | script.js:304-306 | in that setting an empty e-mail is reported as missing, not invalid, and the form is submitted exactly when the subset is empty |
| Validation.PaddedAddressIsInvalid | script.js:304-310 | an address that trimming changes (blanks at one end or both) and whose trimmed value matches the pattern is refused as invalid, and nothing is submitted |
| Contact.ErrorSlots | script.js:283-286 | the four `.field-error` texts after showing an error map: each field's message where it has one, empty text elsewhere |
| Contact.ContactForm.constructor | script.js:273-274 | the page as loaded: empty fields, no errors, the button enabled with its markup label, no notice, nothing sent |
| Contact.ContactForm.Submit | script.js:274-352 | the previous errors are cleared. A refused form shows exactly the error map's messages and marks exactly its fields, and nothing else changes. An accepted form clears the errors, submits the trimmed values once and starts the sending state. The field values are kept either way |
| Contact.ContactForm.ShowErrors | script.js:283-290 | the error slots and the `error` class show exactly the given map; nothing else changes. Also models lines 325-341 |
| Contact.ContactForm.SubmitForm | script.js:358-363 | the payload is recorded, the current label is saved for the timer, and the button shows "Sending..." disabled |
| Contact.ContactForm.SendFinished | script.js:367-379 | the 800 ms timer of the oldest send shows the thank-you notice with `success`, resets the fields, restores that send's saved label, re-enables the button and starts the 5000 ms timer |
| Contact.ContactForm.ShowThankYou | script.js:369-374 | the notice, the `success` class, the reset fields and the new 5000 ms timer; nothing else changes |
| Contact.ContactForm.RestoreButton | script.js:377-378 | the saved label and the enabled button; nothing else changes |
| Contact.ContactForm.NoticeExpired | script.js:381-384 | the 5000 ms timer clears the notice and its classes and nothing else |
| Contact.SubmitOnce | script.js:274-385 | one submission on a fresh page. A valid form is sent once with its trimmed values and leaves blank fields, the thank-you notice, and the original label on an enabled button. An invalid form sends nothing, shows exactly the failing fields' messages and keeps the typed values |
| Notice.Utf8 | script.js:369 | the UTF-8 encoding of a character: 1 to 4 bytes, one byte exactly for ASCII, and three bytes that give the code point back |
| Notice.Windows1252 | script.js:369 | the Windows-1252 reading of a byte, the identity outside 0x80-0x9F |
| Notice.Misread | script.js:369 | text saved as UTF-8 and read as Windows-1252 is never shorter, and ASCII text is unchanged |
| Notice.CheckMarkMisread | script.js:369 | a check mark followed by ASCII text is misread as `âœ“` followed by the same text |
| Notice.ThankYouMisencoded | script.js:369 | the notice written in the script is the intended notice misread |
| Notice.ThankYouAsWrittenDiffers | script.js:369 | the notice as written does not open with the check mark |
| PortfolioFilter.Selects | script.js:161 | the handler's test. A card whose category is identical to the filter is selected, a missing one by a missing one included. A card in category `"all"` is selected only by the `"all"` filter |
| PortfolioFilter.Apply | script.js:161-169 | one card after its visit. Its category is kept, and it is `visible` exactly when it is displayed as a block, which is exactly when the filter selects it |
| PortfolioFilter.Activated | script.js:154-155 | the buttons after the click. Their number and filters are kept, and the clicked button is the only one with `active` |
| PortfolioFilter.Filtered | script.js:158-170 | the cards after a click: as many as before |
| PortfolioFilter.FilteredAt | script.js:158-170 | card `i` after the click is card `i` before it, shown or hidden by the filter |
| PortfolioFilter.FilterShowsExactlySelected | script.js:158-170 | after a click a card is displayed exactly when the filter is `"all"` or equals its category. A card not displayed has `display: none` and no `visible` class. A card has `visible` exactly when displayed, and categories are unchanged |
| PortfolioFilter.AllShowsEverything | script.js:161 | the `"all"` filter displays every card |
| PortfolioFilter.FilterForgetsHistory | script.js:158-170 | what a click shows does not depend on earlier clicks |
| PortfolioFilter.FilterIdempotent | script.js:158-170 | clicking the same filter twice shows what one click shows |
| PortfolioFilter.ActiveCountOnly | script.js:154-155 | with no other button active, the number of active buttons is one exactly when the given one is active |
| PortfolioFilter.ClickedButtonIsTheOnlyActive | script.js:154-155 | after a click exactly one button is active, and it is the clicked one; every filter is unchanged |
| PortfolioFilter.ActivatedIdempotent | script.js:154-155 | clicking a button twice leaves the buttons as one click does |
| PortfolioFilter.Click | script.js:150-171 | the click handler: the buttons become `Activated(old, k)` and the cards `Filtered(old, filter of k)` |
| CaseStudyModal.Modal.constructor | script.js:20-22 | the page as loaded: closed, with the markup's body and `aria-hidden`, and no scroll lock |
| CaseStudyModal.Modal.Open | script.js:204-210 | without a modal nothing changes. Otherwise the body is replaced, and the modal is open, announced and the page locked, whatever it was before |
| CaseStudyModal.Modal.Close | script.js:213-217 | closed, `aria-hidden` "true", overflow "auto", and the body kept |
| CaseStudyModal.Modal.CloseButtonClicked | script.js:219 | the close button closes the modal when the listeners exist, and otherwise changes nothing |
| CaseStudyModal.Modal.ModalClicked | script.js:220-222 | a click closes the modal only when its target is the overlay itself |
| CaseStudyModal.Modal.KeyPressed | script.js:225-229 | a key closes the modal only when it is Escape and the modal is open; otherwise nothing changes |
| CaseStudyModal.OpenThenClose | script.js:204-229 | opening a case study and closing it by any route leaves it closed, hidden and unlocked, with the case study still in the body |
| CaseStudyModal.ContentClickKeepsOpen | script.js:220-229 | a click on the content and a key other than Escape leave an open modal open and locked |
| Navigation.Flipped | script.js:108-109 | the toggle writes "false" exactly when it read "true", and "true" otherwise, a missing attribute included |
| Navigation.NavMenu.constructor | script.js:14-15 | the page as loaded, with the markup's attribute and class |
| Navigation.NavMenu.ToggleClicked | script.js:107-111 | the attribute is flipped and the class toggled, so the two agree afterwards exactly when they agreed before |
| Navigation.NavMenu.LinkClicked | script.js:114-119 | a link click closes the menu and announces it collapsed |
| Navigation.NavMenu.KeyPressed | script.js:458-463 | Escape closes an open menu. Any other key, a closed menu or a missing toggle (the handler fails before writing) changes nothing |
| Navigation.OpenThenDismiss | script.js:107-119 | opening and then dismissing by a link or Escape shows the menu as open, then as closed, with the attribute agreeing each time |
| Navigation.ToggleTwice | script.js:107-111 | two toggles restore the menu and normalise the attribute to "true" or "false" |
| PhotoUpload.IsImage | script.js:45 | `file.type.startsWith('image/')`: the type is at least six characters long and its first six are `image/` |
| PhotoUpload.DataUrl | script.js:58 | the reader's data URL starts with `data:` followed by the file's type |
| PhotoUpload.ImageOf | script.js:44-45 | the handler takes the first file only when there is one and its type starts with `image/` |
| PhotoUpload.SavedPhoto | script.js:63-68 | at load a saved photo is shown only when the slot could be read and holds a non-empty value |
| PhotoUpload.SavedUploadIsShown | script.js:53 | a saved upload, never empty, is shown again at the next load |
| PhotoUpload.PhotoUploader.constructor | script.js:62-71 | page load: with the three elements present, a saved photo replaces the markup's picture and gets `loaded`; otherwise the markup picture stays |
| PhotoUpload.PhotoUploader.FileChosen | script.js:43-60 | an image is shown with `loaded` and then saved when the write succeeds, so a refused write leaves it shown. A missing or non-image file changes neither the photo nor the slot |
| PhotoUpload.PhotoUploader.Dropped | script.js:88-100 | a drop with files acts exactly as choosing them, and an empty drop changes nothing |
| PhotoUpload.UploadThenReload | script.js:43-71 | choose a file, then reload the page. An image is shown at once, and again after the reload exactly when it could be saved. A non-image file changes nothing |

## Findings

| source | as written | input that shows it | evidently intended | confidence | as-written member | corrected member |
|---|---|---|---|---|---|---|
| script.js:369 | the notice text starts with the three characters U+00E2 U+0153 U+201C. They are the UTF-8 bytes of a check mark read back as Windows-1252, so the page shows `âœ“ Thank you! …` | any successful submission | a check mark, U+2713, before "Thank you!" | high; not executed | Notice.ThankYouMisencoded | Contact.SubmitOnce |

The model shows the intended notice, `Notice.ThankYou`, throughout.
`Notice.ThankYouAsWritten` is the script's text, and `Notice.ThankYouMisencoded`
derives it from the intended one. It does so with the helpers `Notice.CheckMarkMisread`,
`Notice.MessageIsAscii`, `Notice.SixBitGroups` and `Notice.Windows1252Text`. `Contact.SubmitOnce` proves that a successful
submission shows `Notice.ThankYou`.

## Left out

- DOM lookups and listener wiring are not modelled. The model takes every element the core uses to exist, except these:
  - the modal and its close button (`present` and `closable`);
  - the navigation toggle (`hasToggle`);
  - the three photo elements (`wired`).
- Navigation.NavMenu: `#primaryNav` is assumed present. Without it the toggle handler and the Escape handler throw on their first use of it.
- The modal body's markup, built from a card's title, category, description and meta (script.js:178-199), is not modelled. `Open` takes the finished markup as a string.
- The CSS changes during drag-over and drag-leave, the inline style resets on drop (script.js:74-92), and the click on the upload area that opens the file dialog (script.js:38-40) are not modelled.
- The scroll-reveal and lazy-image observers (script.js:240-268, 436-453) are browser callbacks and are not modelled.
- Smooth scrolling (script.js:125-140), the sticky-header shadow (script.js:421-431) and the footer year from the clock (script.js:25-27) are not modelled.
- The commented-out `fetch` backend (script.js:388-411) is not live code, and console logging has no effect on state.
- Timers are events the caller fires, not delays:
  - The 800 ms and 5000 ms timers of `submitForm` are the methods `SendFinished` and `NoticeExpired`, fired in the order they were started.
  - The `FileReader` load is taken as finishing within `FileChosen`.
- PortfolioFilter.Click: the 10 ms timer that adds `visible` to a shown card is taken as firing at once. The model therefore misses one interleaving: a second, quicker click can hide a card whose timer from the first click is still pending. That timer then adds `visible` to a hidden card.
- `readAsDataURL` is represented by `DataUrl` over the file's type and its already base64-encoded content. The base64 encoding itself is not modelled.
- `contactForm.reset()` restores the markup's default values. The model takes them to be empty strings.
- The `formMessage` `error` class is only ever removed (script.js:371, 383). The model keeps only the `success` flag.
- Strings are sequences of Unicode scalar values, while JavaScript strings are sequences of UTF-16 code units. The two agree on every well-formed string, for `trim` and the pattern alike. A lone surrogate, which a JavaScript string can hold, has no counterpart in the model.
- Contact: `#formMessage`, the submit button and the four inputs are assumed present.
