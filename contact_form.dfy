/**
 * The contact form as the page script drives it: the submit handler (script.js
 * lines 274-352) and the simulated sending of `submitForm` (lines 358-386).
 * The two timers of `submitForm` are steps of their own: `SendFinished` is the
 * 800 ms callback, `NoticeExpired` the 5000 ms one.
 */
module Contact {
  import opened Validation
  import opened Notice

  const AllFields: set<Field> := {Name, Email, Subject, Message}
  const SendingLabel := "Sending..."
  /** What `contactForm.reset()` leaves in the four fields. */
  const Blank := Form("", "", "", "")

  lemma EveryFieldListed()
    ensures forall field: Field :: field in AllFields
  {
    forall field: Field ensures field in AllFields {
      match field
      case Name =>
      case Email =>
      case Subject =>
      case Message =>
    }
  }

  /** The texts of the four `.field-error` slots after the handler has shown `errors`. */
  function ErrorSlots(errors: map<Field, string>): (slots: map<Field, string>)
    ensures slots.Keys == AllFields
    ensures forall field | field in AllFields :: (slots[field] == "" <==> field !in errors || errors[field] == "")
    ensures forall field | field in errors :: field in slots && slots[field] == errors[field]
  {
    EveryFieldListed();
    map field | field in AllFields :: if field in errors then errors[field] else ""
  }

  class ContactForm {
    /** The values in the four inputs. */
    var values: Form
    /** The text of the error slot next to each input. */
    var errorText: map<Field, string>
    /** The inputs that carry the `error` class. */
    var marked: set<Field>
    var buttonLabel: string
    var buttonDisabled: bool
    /** For each `submitForm` call whose 800 ms timer has not fired, the label it saved, oldest first. */
    var pendingSends: seq<string>
    /** The 5000 ms timers that have not fired. */
    var pendingClears: nat
    /** The text of `#formMessage` and whether it carries the `success` class. */
    var notice: string
    var noticeSuccess: bool
    /** Every payload handed to `submitForm`, oldest first. */
    var submitted: seq<Form>

    /** Every error slot exists, and an input is marked exactly when its slot shows a message. */
    predicate Valid()
      reads this
    {
      errorText.Keys == AllFields && forall field | field in AllFields :: (field in marked <==> errorText[field] != "")
    }

    /** The page as loaded: empty fields, no errors, the submit button enabled with its markup label. */
    constructor (buttonText: string)
      ensures Valid()
      ensures values == Blank && errorText == ErrorSlots(map[]) && marked == {}
      ensures buttonLabel == buttonText && !buttonDisabled && pendingSends == [] && pendingClears == 0
      ensures notice == "" && !noticeSuccess && submitted == []
    {
      values := Blank;
      errorText := ErrorSlots(map[]);
      marked := {};
      buttonLabel := buttonText;
      buttonDisabled := false;
      pendingSends := [];
      pendingClears := 0;
      notice := "";
      noticeSuccess := false;
      submitted := [];
    }

    /**
     * The submit handler: clear the previous errors, run the four checks, then
     * either show each failing field's message next to it and stop, or hand the
     * trimmed values to `submitForm`. Nothing is submitted when a check fails.
     */
    method Submit()
      requires Valid()
      modifies this
      ensures Valid()
      ensures values == old(values) && notice == old(notice) && noticeSuccess == old(noticeSuccess)
      ensures pendingClears == old(pendingClears)
      ensures Decide(old(values)).Rejected? ==>
          && errorText == ErrorSlots(Decide(old(values)).errors) && marked == Decide(old(values)).errors.Keys
          && submitted == old(submitted) && pendingSends == old(pendingSends)
          && buttonLabel == old(buttonLabel) && buttonDisabled == old(buttonDisabled)
      ensures Decide(old(values)).Submitted? ==>
          && errorText == ErrorSlots(map[]) && marked == {}
          && submitted == old(submitted) + [Decide(old(values)).payload] && pendingSends == old(pendingSends) + [old(buttonLabel)]
          && buttonLabel == SendingLabel && buttonDisabled
    {
      ShowErrors(map[]);
      var decision := Decide(values);
      match decision {
        case Rejected(errors) =>
          MessagesAreNonEmpty(values);
          ShowErrors(errors);
        case Submitted(payload) =>
          SubmitForm(payload);
      }
    }

    /**
     * Fills the four error slots from `errors` (an empty map clears them all) and
     * marks exactly the inputs that have an error.
     */
    method ShowErrors(errors: map<Field, string>)
      requires forall field | field in errors :: errors[field] != ""
      modifies this
      ensures Valid()
      ensures errorText == ErrorSlots(errors) && marked == errors.Keys
      ensures values == old(values) && buttonLabel == old(buttonLabel) && buttonDisabled == old(buttonDisabled)
      ensures pendingSends == old(pendingSends) && pendingClears == old(pendingClears)
      ensures notice == old(notice) && noticeSuccess == old(noticeSuccess) && submitted == old(submitted)
    {
      errorText := ErrorSlots(errors);
      marked := errors.Keys;
    }

    /**
     * `submitForm` up to its timer: record the payload, save the button's label
     * for the timer to restore, and show the in-progress state.
     */
    method SubmitForm(payload: Form)
      requires Valid()
      modifies this
      ensures Valid()
      ensures submitted == old(submitted) + [payload] && pendingSends == old(pendingSends) + [old(buttonLabel)]
      ensures buttonLabel == SendingLabel && buttonDisabled
      ensures values == old(values) && errorText == old(errorText) && marked == old(marked)
      ensures pendingClears == old(pendingClears) && notice == old(notice) && noticeSuccess == old(noticeSuccess)
    {
      submitted := submitted + [payload];
      pendingSends := pendingSends + [buttonLabel];
      buttonLabel := SendingLabel;
      buttonDisabled := true;
    }

    /**
     * The 800 ms timer of the oldest pending `submitForm`: show the thank-you
     * notice, reset the fields, restore the label that call saved and re-enable
     * the button, and start the 5000 ms timer.
     */
    method SendFinished()
      requires Valid()
      requires pendingSends != []
      modifies this
      ensures Valid()
      ensures notice == ThankYou && noticeSuccess && values == Blank
      ensures buttonLabel == old(pendingSends[0]) && !buttonDisabled
      ensures pendingSends == old(pendingSends[1..]) && pendingClears == old(pendingClears) + 1
      ensures errorText == old(errorText) && marked == old(marked) && submitted == old(submitted)
    {
      var saved := pendingSends[0];
      ShowThankYou();
      RestoreButton(saved);
    }

    /** The notice, the reset of the fields and the start of the 5000 ms timer. */
    method ShowThankYou()
      requires Valid()
      modifies this
      ensures Valid()
      ensures notice == ThankYou && noticeSuccess && values == Blank && pendingClears == old(pendingClears) + 1
      ensures buttonLabel == old(buttonLabel) && buttonDisabled == old(buttonDisabled) && pendingSends == old(pendingSends)
      ensures errorText == old(errorText) && marked == old(marked) && submitted == old(submitted)
    {
      notice, noticeSuccess, values := ThankYou, true, Blank;
      pendingClears := pendingClears + 1;
    }

    /** The saved label back on the button, which is enabled again, and the oldest pending send done. */
    method RestoreButton(saved: string)
      requires Valid()
      requires pendingSends != []
      modifies this
      ensures Valid()
      ensures buttonLabel == saved && !buttonDisabled && pendingSends == old(pendingSends[1..])
      ensures notice == old(notice) && noticeSuccess == old(noticeSuccess) && values == old(values) && pendingClears == old(pendingClears)
      ensures errorText == old(errorText) && marked == old(marked) && submitted == old(submitted)
    {
      buttonLabel, buttonDisabled := saved, false;
      pendingSends := pendingSends[1..];
    }

    /** The 5000 ms timer: clear the notice and its classes. */
    method NoticeExpired()
      requires Valid()
      requires pendingClears > 0
      modifies this
      ensures Valid()
      ensures notice == "" && !noticeSuccess && pendingClears == old(pendingClears) - 1
      ensures values == old(values) && errorText == old(errorText) && marked == old(marked)
      ensures buttonLabel == old(buttonLabel) && buttonDisabled == old(buttonDisabled)
      ensures pendingSends == old(pendingSends) && submitted == old(submitted)
    {
      notice := "";
      noticeSuccess := false;
      pendingClears := pendingClears - 1;
    }
  }

  /**
   * One whole submission on a freshly loaded page: type `f`, submit, and let the
   * 800 ms timer fire if a send was started. A valid form is sent once, with its
   * trimmed values, and leaves the fields blank, the thank-you notice shown and
   * the button back to its label and enabled; an invalid one sends nothing and
   * shows exactly the failing fields' messages.
   */
  method SubmitOnce(buttonText: string, f: Form) returns (sent: seq<Form>, slots: map<Field, string>, shown: string, restored: string, enabled: bool, left: Form)
    ensures Decide(f).Submitted? ==> sent == [Trimmed(f)] && shown == ThankYou && restored == buttonText && enabled && left == Blank
    ensures Decide(f).Rejected? ==> sent == [] && slots == ErrorSlots(Validate(f)) && shown == "" && restored == buttonText && enabled && left == f
  {
    var form := new ContactForm(buttonText);
    form.values := f;
    form.Submit();
    if Decide(f).Submitted? {
      form.SendFinished();
    }
    sent, slots, shown := form.submitted, form.errorText, form.notice;
    restored, enabled, left := form.buttonLabel, !form.buttonDisabled, form.values;
  }
}
