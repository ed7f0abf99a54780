/**
  The newsletter signup widget: the e-mail box, the in-flight flag and the
  submit status, driven by one submit handler.
 */
module NewsletterSignup {
  import opened Wrappers
  import opened Text

  datatype Status = Idle | Success | Failure

  /** Where the widget is shown; the body of the request names it as `source`. */
  datatype Variant = Inline | FooterVariant | Section

  function VariantName(v: Variant): string {
    match v
    case Inline => "inline"
    case FooterVariant => "footer"
    case Section => "section"
  }

  /** The JSON request posted to the site's own newsletter endpoint. */
  datatype SignupRequest = SignupRequest(path: string, email: string, source: string)

  /** The outcome of the request, once sent: a response with `ok`, a
      response without it, or an exception. */
  datatype FetchOutcome = Ok | NotOk | Thrown

  const Endpoint := "/api/newsletter"

  class Widget {
    const variant: Variant
    var email: string
    var isSubmitting: bool
    var status: Status

    /** A fresh widget; the variant defaults to `inline` at the call site. */
    constructor(v: Variant)
      ensures variant == v && email == "" && !isSubmitting && status == Idle
    {
      variant := v;
      email := "";
      isSubmitting := false;
      status := Idle;
    }

    /** The submit button's `disabled` rule. */
    predicate SubmitDisabled()
      reads this
    {
      IsBlank(email) || isSubmitting
    }

    /** The input's change handler. */
    method SetEmail(value: string)
      modifies this
      ensures email == value && isSubmitting == old(isSubmitting) && status == old(status)
    {
      email := value;
    }

    /** `handleSubmit`, as one step. `credentialsSet` says whether both
        Mailchimp settings are present; `outcome` is what the request does
        when one is made. The ghost results are the flag and the status
        while the attempt is in flight. */
    method HandleSubmit(credentialsSet: bool, outcome: FetchOutcome)
        returns (request: Option<SignupRequest>, ghost submittingDuring: bool, ghost statusDuring: Status)
      modifies this
      ensures IsBlank(old(email)) ==>
        request.None? && email == old(email) && isSubmitting == old(isSubmitting) && status == old(status)
      ensures !IsBlank(old(email)) ==>
        && submittingDuring && statusDuring == Idle
        && !isSubmitting
        && (request.Some? <==> credentialsSet)
        && (credentialsSet ==> request == Some(SignupRequest(Endpoint, old(email), VariantName(variant))))
        && (status == Success <==> !credentialsSet || outcome == Ok)
        && (status == Failure <==> credentialsSet && outcome != Ok)
        && (status == Success ==> email == "")
        && (status == Failure ==> email == old(email))
      ensures !IsBlank(old(email)) ==> (SubmitDisabled() <==> status == Success)
    {
      request := None;
      submittingDuring, statusDuring := isSubmitting, status;
      if IsBlank(email) {
        return;
      }
      ghost var typed := email;
      isSubmitting := true;
      status := Idle;
      submittingDuring, statusDuring := isSubmitting, status;
      if !credentialsSet {
        status := Success;
        email := "";
      } else {
        request := Some(SignupRequest(Endpoint, email, VariantName(variant)));
        if outcome == Ok {
          status := Success;
          email := "";
        } else {
          status := Failure;
        }
      }
      isSubmitting := false;
      assert email == "" || email == typed;
    }
  }
}
