/**
  The footer's newsletter box: one state record (address, in-flight flag,
  submitted flag, error message) changed by the submit handler, the change
  handler and the timer that hides the thank-you note.
 */
module FooterNewsletter {
  import opened Wrappers
  import opened Text
  import opened EmailPattern

  const InvalidEmailMessage := "Please enter a valid email address"
  const FailureMessage := "Something went wrong. Please try again."

  /** `validateEmail`: the regular expression `^[^\s@]+@[^\s@]+\.[^\s@]+$`. */
  function ValidateEmail(email: string): (r: bool)
    ensures r <==> HasEmailShape(email)
  {
    ShapeMatchesPattern(email);
    MatchesEmailPattern(email)
  }

  /** Whether the awaited sign-up step completes or throws. The step awaited
      today is a timer, which never rejects, so `Thrown` cannot happen in the
      code as written: it stands for the failure of a future API call. */
  datatype Outcome = Completed | Thrown

  class NewsletterBox {
    var email: string
    var isSubmitting: bool
    var isSubmitted: bool
    var error: Option<string>

    constructor()
      ensures email == "" && !isSubmitting && !isSubmitted && error.None?
    {
      email := "";
      isSubmitting := false;
      isSubmitted := false;
      error := None;
    }

    /** The submit button's `disabled` rule. */
    predicate SubmitDisabled()
      reads this
    {
      isSubmitting || isSubmitted || IsBlank(email)
    }

    /** `handleSubmit`, as one step; the ghost results are the flag and the
        error while the attempt is in flight. */
    method HandleSubmit(outcome: Outcome) returns (ghost submittingDuring: bool, ghost errorDuring: Option<string>)
      modifies this
      ensures !HasEmailShape(old(email)) ==>
        && error == Some(InvalidEmailMessage)
        && email == old(email) && isSubmitting == old(isSubmitting) && isSubmitted == old(isSubmitted)
      ensures HasEmailShape(old(email)) ==>
        && submittingDuring && errorDuring.None?
        && !isSubmitting
        && (outcome == Completed ==> isSubmitted && email == "" && error.None?)
        && (outcome == Thrown ==>
              isSubmitted == old(isSubmitted) && email == old(email) && error == Some(FailureMessage))
      ensures HasEmailShape(old(email)) && outcome == Completed ==> SubmitDisabled()
    {
      submittingDuring, errorDuring := isSubmitting, error;
      if !ValidateEmail(email) {
        error := Some(InvalidEmailMessage);
        return;
      }
      isSubmitting := true;
      error := None;
      submittingDuring, errorDuring := isSubmitting, error;
      if outcome == Completed {
        isSubmitting := false;
        isSubmitted := true;
        email := "";
      } else {
        isSubmitting := false;
        error := Some(FailureMessage);
      }
    }

    /** The timer that fires after a success. */
    method ClearSubmitted()
      modifies this
      ensures !isSubmitted
      ensures email == old(email) && isSubmitting == old(isSubmitting) && error == old(error)
    {
      isSubmitted := false;
    }

    /** `handleEmailChange`. */
    method HandleEmailChange(value: string)
      modifies this
      ensures email == value && error.None?
      ensures isSubmitting == old(isSubmitting) && isSubmitted == old(isSubmitted)
    {
      email := value;
      error := None;
    }
  }
}
