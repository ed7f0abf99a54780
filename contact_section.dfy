/**
  The landing page's contact section: a three-field form posted to the
  form service, with an in-flight flag and a submit status.
 */
module ContactSection {
  import opened Wrappers
  import opened Text

  datatype Status = Idle | Success | Failure

  /** The `name` attributes of the three inputs. */
  datatype Field = Name | Email | Message

  datatype FormData = FormData(name: string, email: string, message: string) {
    function Get(f: Field): string {
      match f
      case Name => name
      case Email => email
      case Message => message
    }
  }

  const EmptyForm := FormData("", "", "")
  const PlaceholderKey := "YOUR_WEB3FORMS_ACCESS_KEY"

  /** The JSON body sent to the form service, as its members in order. */
  function Payload(accessKey: Option<string>, data: FormData): (r: seq<(string, string)>)
    ensures |r| == 6
    ensures r[0] == ("access_key", if Truthy(accessKey) then accessKey.value else PlaceholderKey)
    ensures r[1] == ("name", data.name) && r[2] == ("email", data.email) && r[3] == ("message", data.message)
    ensures r[4] == ("from_name", "Mobilify Contact Form")
    ensures r[5] == ("subject", "New Contact Form Submission from Mobilify Website")
    ensures forall i, j :: 0 <= i < j < |r| ==> r[i].0 != r[j].0
  {
    [("access_key", OrElse(accessKey, PlaceholderKey)),
     ("name", data.name), ("email", data.email), ("message", data.message),
     ("from_name", "Mobilify Contact Form"),
     ("subject", "New Contact Form Submission from Mobilify Website")]
  }

  datatype FetchOutcome = Ok | NotOk | Thrown

  class ContactPanel {
    var formData: FormData
    var isSubmitting: bool
    var status: Status

    constructor()
      ensures formData == EmptyForm && !isSubmitting && status == Idle
    {
      formData := EmptyForm;
      isSubmitting := false;
      status := Idle;
    }

    /** The submit button's `disabled` rule. */
    predicate SubmitDisabled()
      reads this
    {
      isSubmitting
    }

    /** `handleChange` for the input named `f`. */
    method HandleChange(f: Field, value: string)
      modifies this
      ensures formData.Get(f) == value
      ensures forall g :: g != f ==> formData.Get(g) == old(formData.Get(g))
      ensures isSubmitting == old(isSubmitting) && status == old(status)
    {
      match f
      case Name => formData := formData.(name := value);
      case Email => formData := formData.(email := value);
      case Message => formData := formData.(message := value);
    }

    /** `handleSubmit`, as one step; the ghost results are the flag and the
        status while the request is in flight. */
    method HandleSubmit(accessKey: Option<string>, outcome: FetchOutcome)
        returns (body: seq<(string, string)>, ghost submittingDuring: bool, ghost statusDuring: Status)
      modifies this
      ensures body == Payload(accessKey, old(formData))
      ensures submittingDuring && statusDuring == Idle
      ensures !isSubmitting && !SubmitDisabled()
      ensures outcome == Ok ==> status == Success && formData == EmptyForm
      ensures outcome != Ok ==> status == Failure && formData == old(formData)
    {
      isSubmitting := true;
      status := Idle;
      submittingDuring, statusDuring := isSubmitting, status;
      body := Payload(accessKey, formData);
      if outcome == Ok {
        status := Success;
        formData := FormData("", "", "");
      } else {
        status := Failure;
      }
      isSubmitting := false;
    }
  }
}
