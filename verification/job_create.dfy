/**
 * The page that posts a new job: the form, its job-type dropdown, the
 * login guard of a submit and the colour of the message it leaves.
 */
module JobCreate {
  import opened Text
  import opened JobSchema
  import opened Forms

  /** The dropdown's entries, in their order on the page. */
  const TypeOptions: seq<string> := ["Full-time", "Part-time", "Contract", "Internship", "Remote"]

  /** The dropdown offers exactly the types the schema accepts. */
  lemma TypeOptionsAreSchemaTypes()
    ensures TypeOptions == JobTypes
    ensures forall t <- TypeOptions :: t in JobTypes
  {
  }

  const LoginMessage := "Please log in to post a job"
  const CreateFailedMessage := "Failed to create job"

  /** The message shows red when it mentions logging in, green otherwise. */
  predicate MessageIsError(message: string) {
    Includes(message, "log in")
  }

  /** The login prompt is red; the page's own failure text is green. */
  lemma MessageColours()
    ensures MessageIsError(LoginMessage)
    ensures !MessageIsError(CreateFailedMessage)
  {
    assert OccursAt(LoginMessage, "log in", 7);
    forall i | 0 <= i <= |CreateFailedMessage| - 6
      ensures !OccursAt(CreateFailedMessage, "log in", i)
    {
      assert CreateFailedMessage[i] != 'l' || CreateFailedMessage[i + 1] != 'o';
      assert CreateFailedMessage[i..i + 6][0] == CreateFailedMessage[i];
    }
  }

  /**
   * A failed create shows red exactly when the server's message mentions
   * logging in; without a message the page's own text shows green.
   */
  lemma FailureColour(m: Option<string>)
    ensures MessageIsError(FailureText(m, CreateFailedMessage)) <==> m.Some? && m.value != "" && Includes(m.value, "log in")
  {
    MessageColours();
  }

  /** A login token is there: `getToken()` gave a non-empty string. */
  predicate HasToken(token: Option<string>) {
    token.Some? && token.value != ""
  }

  /** The create page's state. */
  class CreatePage {
    var form: Form
    var message: string
    var isSubmitting: bool
    var isDropdownOpen: bool

    constructor ()
      ensures form == EmptyForm && message == "" && !isSubmitting && !isDropdownOpen
      ensures forall f :: f != JobType ==> Get(form, f) == ""
      ensures form.jobType == DefaultJobType && form.jobType in JobTypes
    {
      form := EmptyForm;
      message := "";
      isSubmitting := false;
      isDropdownOpen := false;
    }

    /** `handleChange`: only the named field takes the new value. */
    method HandleChange(f: Field, value: string)
      modifies this
      ensures form == Set(old(form), f, value)
      ensures Get(form, f) == value && forall g :: g != f ==> Get(form, g) == Get(old(form), g)
      ensures message == old(message) && isSubmitting == old(isSubmitting) && isDropdownOpen == old(isDropdownOpen)
    {
      form := Set(form, f, value);
    }

    /** The dropdown button opens a closed list and closes an open one. */
    method ToggleDropdown()
      modifies this
      ensures isDropdownOpen == !old(isDropdownOpen)
      ensures form == old(form) && message == old(message) && isSubmitting == old(isSubmitting)
    {
      isDropdownOpen := !isDropdownOpen;
    }

    /** Choosing an entry sets the job type to it and closes the list. */
    method SelectJobType(i: nat)
      requires i < |TypeOptions|
      modifies this
      ensures form == Set(old(form), JobType, TypeOptions[i])
      ensures form.jobType in JobTypes && !isDropdownOpen
      ensures message == old(message) && isSubmitting == old(isSubmitting)
    {
      form := Set(form, JobType, TypeOptions[i]);
      isDropdownOpen := false;
    }

    /**
     * `handleSubmit`. Without a token nothing is sent and the login prompt
     * shows; with one the form goes out, and a failure leaves the server's
     * message or the page's fallback. `sent` says whether a request went out.
     */
    method HandleSubmit(token: Option<string>, reply: Reply) returns (sent: bool)
      modifies this
      ensures !isSubmitting && form == old(form) && isDropdownOpen == old(isDropdownOpen)
      ensures sent <==> HasToken(token)
      ensures !HasToken(token) ==> message == LoginMessage && MessageIsError(message)
      ensures HasToken(token) && reply.Succeeded? ==> message == old(message)
      ensures HasToken(token) && reply.Failed? ==> message == FailureText(reply.message, CreateFailedMessage)
    {
      isSubmitting := true;
      if !HasToken(token) {
        message := LoginMessage;
        isSubmitting := false;
        MessageColours();
        return false;
      }
      sent := true;
      match reply {
        case Succeeded =>
        case Failed(m) =>
          message := FailureText(m, CreateFailedMessage);
      }
      isSubmitting := false;
    }
  }
}
