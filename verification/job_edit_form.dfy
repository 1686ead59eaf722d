/**
 * The edit page of a posting: the form filled from the fetched job, the
 * character counts of the three long fields and their quality targets,
 * field edits, the job-type buttons and the flags of a submit.
 */
module JobEditForm {
  import opened Text
  import opened JobSchema
  import opened Forms
  import JobApi

  /** `value || ''` on a text path. */
  function TextOrBlank(v: Option<string>): (r: string)
    ensures v.Some? ==> r == v.value
    ensures v.None? ==> r == ""
  {
    v.GetOr("")
  }

  /** The form the fetched job fills in. */
  function LoadForm(doc: Job): (r: Form)
    ensures r.title == TextOrBlank(doc.title) && r.description == TextOrBlank(doc.description)
    ensures r.company == TextOrBlank(doc.company) && r.location == TextOrBlank(doc.location)
    ensures r.requirements == TextOrBlank(doc.requirements)
    ensures r.responsibilities == TextOrBlank(doc.responsibilities)
    ensures r.contact == TextOrBlank(doc.contact)
    ensures r.salary == SalaryField(doc.salary)
    ensures r.jobType == DefaultJobType <==> doc.jobType == None || doc.jobType == Some("") || doc.jobType == Some(DefaultJobType)
    ensures r.jobType != "" && (doc.jobType.Some? && doc.jobType.value != "" ==> r.jobType == doc.jobType.value)
  {
    Form(
      TextOrBlank(doc.title),
      TextOrBlank(doc.description),
      TextOrBlank(doc.company),
      TextOrBlank(doc.location),
      SalaryField(doc.salary),
      TextOrBlank(doc.requirements),
      TextOrBlank(doc.responsibilities),
      TextOrBlank(doc.contact),
      if doc.jobType.Some? && doc.jobType.value != "" then doc.jobType.value else DefaultJobType)
  }

  /** `salary || ''`: no salary and a salary of 0 both show blank; any other salary reads back as itself. */
  function SalaryField(salary: Option<int>): (r: string)
    ensures r == "" <==> salary == None || salary == Some(0)
    ensures salary.Some? && salary.value != 0 ==> ParseNumber(r) == salary
  {
    match salary
    case Some(v) =>
      if v == 0 then ""
      else
        NumberRoundTrip(v);
        NumberText(v)
    case None => ""
  }

  /** A stored job loads with every text field as stored and its own type. */
  lemma LoadStoredJob(doc: Job)
    requires JobSchema.Valid(doc)
    ensures LoadForm(doc).title == doc.title.value && LoadForm(doc).description == doc.description.value
    ensures LoadForm(doc).jobType == doc.jobType.value && LoadForm(doc).jobType in JobTypes
  {
    ValidHasRequiredFieldsWithinCaps(doc);
  }

  /** `characterCounts`: the `.length` of the three long fields, in UTF-16 code units. */
  datatype Counts = Counts(description: nat, requirements: nat, responsibilities: nat)

  function CountsOf(form: Form): Counts {
    Counts(Utf16Length(form.description), Utf16Length(form.requirements), Utf16Length(form.responsibilities))
  }

  /** The "Content Quality" targets. */
  const DescriptionTarget := 200
  const RequirementsTarget := 150
  const ResponsibilitiesTarget := 150

  /** Which of the three indicators show green. */
  datatype Quality = Quality(description: bool, requirements: bool, responsibilities: bool)

  function QualityOf(c: Counts): Quality {
    Quality(c.description >= DescriptionTarget, c.requirements >= RequirementsTarget,
            c.responsibilities >= ResponsibilitiesTarget)
  }

  /**
   * An indicator is green exactly when its field is at least as long as
   * its target, and an edit of one field leaves the other indicators as
   * they were.
   */
  lemma QualityOfForm(form: Form, f: Field, v: string)
    ensures QualityOf(CountsOf(form)).description <==> Utf16Length(form.description) >= 200
    ensures QualityOf(CountsOf(form)).requirements <==> Utf16Length(form.requirements) >= 150
    ensures QualityOf(CountsOf(form)).responsibilities <==> Utf16Length(form.responsibilities) >= 150
    ensures f != Description ==> QualityOf(CountsOf(Set(form, f, v))).description == QualityOf(CountsOf(form)).description
    ensures f != Requirements ==> QualityOf(CountsOf(Set(form, f, v))).requirements == QualityOf(CountsOf(form)).requirements
    ensures f != Responsibilities ==>
      QualityOf(CountsOf(Set(form, f, v))).responsibilities == QualityOf(CountsOf(form)).responsibilities
  {
    assert f != Description ==> Get(Set(form, f, v), Description) == Get(form, Description);
    assert f != Requirements ==> Get(Set(form, f, v), Requirements) == Get(form, Requirements);
    assert f != Responsibilities ==> Get(Set(form, f, v), Responsibilities) == Get(form, Responsibilities);
  }

  /** The `maxLength` of the three text areas. */
  const DescriptionInputMax := 1500
  const RequirementsInputMax := 1000
  const ResponsibilitiesInputMax := 1000

  /**
   * The text areas accept more than the schema keeps: an update whose
   * description, requirements or responsibilities fits its text area but
   * not the schema's cap is refused, whatever the stored job was.
   */
  lemma InputLimitsExceedCaps(current: Job, body: Job)
    ensures DescriptionMax < DescriptionInputMax && RequirementsMax < RequirementsInputMax
    ensures ResponsibilitiesMax < ResponsibilitiesInputMax
    ensures body.description.Some? && DescriptionMax < Utf16Length(body.description.value) <= DescriptionInputMax ==>
      !JobSchema.Valid(JobApi.Patch(current, body))
    ensures body.requirements.Some? && RequirementsMax < Utf16Length(body.requirements.value) <= RequirementsInputMax ==>
      !JobSchema.Valid(JobApi.Patch(current, body))
    ensures body.responsibilities.Some? && ResponsibilitiesMax < Utf16Length(body.responsibilities.value) <= ResponsibilitiesInputMax ==>
      !JobSchema.Valid(JobApi.Patch(current, body))
  {
  }

  /** The type buttons, in their order on the page. */
  const TypeButtons: seq<string> := ["Full-time", "Part-time", "Contract", "Internship", "Remote"]

  lemma TypeButtonsAreSchemaTypes()
    ensures TypeButtons == JobTypes
  {
  }

  const LoadFailedMessage := "Failed to load job details. Please try again."
  const UpdateFailedMessage := "Failed to update job. Please try again."

  /** The edit page's state. */
  class EditPage {
    var form: Form
    var counts: Counts
    var loading: bool
    var updating: bool
    var error: string
    var success: bool

    /** The counts effect has run on the current form. */
    ghost predicate Valid()
      reads this
    {
      counts == CountsOf(form)
    }

    constructor ()
      ensures Valid() && form == EmptyForm && loading && !updating && error == "" && !success
      ensures forall f :: f != JobType ==> Get(form, f) == ""
      ensures form.jobType == DefaultJobType && counts == Counts(0, 0, 0)
    {
      form := EmptyForm;
      counts := CountsOf(EmptyForm);
      loading := true;
      updating := false;
      error := "";
      success := false;
    }

    /** The job arrived: the form takes its values. */
    method Loaded(doc: Job)
      modifies this
      ensures Valid() && form == LoadForm(doc) && !loading
      ensures updating == old(updating) && error == old(error) && success == old(success)
    {
      form := LoadForm(doc);
      counts := CountsOf(form);
      loading := false;
    }

    /** The job could not be fetched: the form stays as it was. */
    method LoadFailed()
      requires Valid()
      modifies this
      ensures Valid() && form == old(form) && !loading && error == LoadFailedMessage
      ensures updating == old(updating) && success == old(success)
    {
      error := LoadFailedMessage;
      loading := false;
    }

    /** `handleChange`: only the named field takes the new value. */
    method HandleChange(f: Field, value: string)
      requires Valid()
      modifies this
      ensures Valid() && form == Set(old(form), f, value)
      ensures Get(form, f) == value && forall g :: g != f ==> Get(form, g) == Get(old(form), g)
      ensures loading == old(loading) && updating == old(updating) && error == old(error) && success == old(success)
    {
      form := Set(form, f, value);
      counts := CountsOf(form);
    }

    /** A type button: only the job type changes. */
    method SelectJobType(i: nat)
      requires Valid() && i < |TypeButtons|
      modifies this
      ensures Valid() && form == old(form).(jobType := TypeButtons[i])
      ensures form.jobType in JobTypes
      ensures loading == old(loading) && updating == old(updating) && error == old(error) && success == old(success)
    {
      form := Set(form, JobType, TypeButtons[i]);
      counts := CountsOf(form);
    }

    /** The first half of `handleSubmit`: busy, no error, and the form goes out as it is. */
    method StartSubmit() returns (payload: Form)
      requires Valid()
      modifies this
      ensures Valid() && updating && error == "" && payload == form
      ensures form == old(form) && loading == old(loading) && success == old(success)
    {
      updating := true;
      error := "";
      payload := form;
    }

    /** The second half: success only on success, the server's message or the fallback otherwise, never busy after. */
    method FinishSubmit(reply: Reply)
      requires Valid()
      modifies this
      ensures Valid() && !updating && form == old(form) && loading == old(loading)
      ensures reply.Succeeded? ==> success && error == old(error)
      ensures reply.Failed? ==> success == old(success) && error == FailureText(reply.message, UpdateFailedMessage)
    {
      match reply {
        case Succeeded =>
          success := true;
        case Failed(m) =>
          error := FailureText(m, UpdateFailedMessage);
      }
      updating := false;
    }

    /** `handleSubmit` end to end. */
    method HandleSubmit(reply: Reply) returns (payload: Form)
      requires Valid()
      modifies this
      ensures Valid() && !updating && payload == old(form) && form == old(form) && loading == old(loading)
      ensures reply.Succeeded? ==> success && error == ""
      ensures reply.Failed? ==> success == old(success) && error == FailureText(reply.message, UpdateFailedMessage)
    {
      payload := StartSubmit();
      FinishSubmit(reply);
    }
  }

  /** The `message` field of a response body, as the page reads it. */
  function BodyMessage(b: JobApi.Body): Option<string> {
    match b
    case FailureBody(_, m) => Some(m)
    case MessageBody(m) => Some(m)
    case _ => None
  }

  /**
   * A refusal of an update (any answer of `JobApi.JobStore.Update` other than
   * 200, each an `ErrorBody`) carries no `message`, so the page always shows
   * its own fallback.
   */
  lemma UpdateRefusalsShowFallback(resp: JobApi.Response)
    requires resp.body.ErrorBody?
    ensures FailureText(BodyMessage(resp.body), UpdateFailedMessage) == UpdateFailedMessage
  {
  }
}
