/**
 * The job schema: the field rules every stored job posting satisfies.
 *
 * A `Job` is a document as the schema sees it, so every path may be
 * missing (`None`). Assigning a document runs the schema's setters
 * (`Prepare`: the title is trimmed, a missing `responsibilities` gets its
 * default); saving it runs the validators (`ValidationErrors`), which must
 * report nothing. `Valid` states the same rules field by field.
 */
module JobSchema {
  import opened Text
  import EmailPattern

  /** A document id (an ObjectId as its hexadecimal text). */
  type Id = string

  datatype Job = Job(
    title: Option<string>,
    description: Option<string>,
    company: Option<string>,
    location: Option<string>,
    salary: Option<int>,
    contact: Option<string>,
    requirements: Option<string>,
    responsibilities: Option<string>,
    jobType: Option<string>,
    createdBy: Option<Id>)

  /** A stored job together with its document id. */
  datatype Posting = Posting(id: Id, job: Job)

  /** The paths of the schema, in their order of declaration. */
  datatype Path =
    | TitlePath | DescriptionPath | CompanyPath | LocationPath | SalaryPath
    | ContactPath | RequirementsPath | ResponsibilitiesPath | JobTypePath | CreatedByPath

  /** The name of a path in a validation message. */
  function PathName(p: Path): string {
    match p
    case TitlePath => "title"
    case DescriptionPath => "description"
    case CompanyPath => "company"
    case LocationPath => "location"
    case SalaryPath => "salary"
    case ContactPath => "contact"
    case RequirementsPath => "requirements"
    case ResponsibilitiesPath => "responsibilities"
    case JobTypePath => "jobType"
    case CreatedByPath => "createdBy"
  }

  /** The position of a path in the schema. */
  function Rank(p: Path): (k: nat)
    ensures k < 10 && PathAt(k) == p
  {
    match p
    case TitlePath => 0
    case DescriptionPath => 1
    case CompanyPath => 2
    case LocationPath => 3
    case SalaryPath => 4
    case ContactPath => 5
    case RequirementsPath => 6
    case ResponsibilitiesPath => 7
    case JobTypePath => 8
    case CreatedByPath => 9
  }

  /** The path at a position of the schema. */
  function PathAt(k: nat): Path
    requires k < 10
  {
    if k == 0 then TitlePath
    else if k == 1 then DescriptionPath
    else if k == 2 then CompanyPath
    else if k == 3 then LocationPath
    else if k == 4 then SalaryPath
    else if k == 5 then ContactPath
    else if k == 6 then RequirementsPath
    else if k == 7 then ResponsibilitiesPath
    else if k == 8 then JobTypePath
    else CreatedByPath
  }

  /** One failed rule: the path and the message the schema gives for it. */
  datatype FieldError = FieldError(path: Path, message: string)

  const TitleMax := 100
  const DescriptionMax := 1000
  const CompanyMax := 50
  const LocationMax := 100
  const RequirementsMax := 500
  const ResponsibilitiesMax := 500

  const DefaultResponsibilities := "Not specified"

  /** The `enum` of `jobType`, in the schema's order. */
  const JobTypes: seq<string> := ["Full-time", "Part-time", "Contract", "Internship", "Remote"]

  predicate IsHexDigit(c: char) {
    ('0' <= c <= '9') || ('a' <= c <= 'f') || ('A' <= c <= 'F')
  }

  /** `ObjectId.isValid` on a string: twenty-four hexadecimal digits. */
  predicate IsValidId(s: string) {
    |s| == 24 && forall i :: 0 <= i < |s| ==> IsHexDigit(s[i])
  }

  /** The id an ObjectId text denotes: hexadecimal digits are read without regard to case. */
  function Key(id: Id): Id {
    ToLower(id)
  }

  /** The text of an id as the driver generates it: twenty-four lower-case hexadecimal digits. */
  predicate IsCanonicalId(s: string) {
    IsValidId(s) && Key(s) == s
  }

  lemma KeyCanonical(id: Id)
    requires IsValidId(id)
    ensures IsCanonicalId(Key(id))
  {
    ToLowerIdempotent(id);
  }

  // ---------------------------------------------------------------------
  // Setters applied when a document is assigned
  // ---------------------------------------------------------------------

  /** `trim: true` on the title. */
  function TrimTitle(j: Job): Job {
    match j.title
    case Some(t) => j.(title := Some(Trim(t)))
    case None => j
  }

  /** `default: "Not specified"` on responsibilities. */
  function ApplyDefaults(j: Job): Job {
    j.(responsibilities := Some(j.responsibilities.GetOr(DefaultResponsibilities)))
  }

  /** What a new document holds once assigned: title trimmed, defaults filled in. */
  function Prepare(j: Job): (r: Job)
    ensures r.responsibilities.Some?
    ensures r.responsibilities == Some(j.responsibilities.GetOr(DefaultResponsibilities))
    ensures r.title == if j.title.Some? then Some(Trim(j.title.value)) else None
    ensures r.title.Some? <==> j.title.Some?
    ensures r.title.Some? ==> IsTrimmed(r.title.value)
    ensures r.description == j.description && r.company == j.company && r.location == j.location
    ensures r.salary == j.salary && r.contact == j.contact && r.requirements == j.requirements
    ensures r.jobType == j.jobType && r.createdBy == j.createdBy
  {
    ApplyDefaults(TrimTitle(j))
  }

  /** Preparing a prepared document changes nothing. */
  lemma PrepareIdempotent(j: Job)
    ensures Prepare(Prepare(j)) == Prepare(j)
  {
    if j.title.Some? {
      TrimIdempotent(j.title.value);
    }
  }

  // ---------------------------------------------------------------------
  // Validators
  // ---------------------------------------------------------------------

  /** `required` on a string path: present and not the empty string. */
  predicate PresentText(v: Option<string>) {
    v.Some? && |v.value| > 0
  }

  /** A required string path under a `maxlength`, which counts UTF-16 code units. */
  predicate CappedOk(v: Option<string>, max: nat) {
    PresentText(v) && Utf16Length(v.value) <= max
  }

  predicate TitleOk(v: Option<string>) {
    CappedOk(v, TitleMax)
  }

  /** The rules of the schema, field by field. */
  predicate Valid(j: Job) {
    && TitleOk(j.title)
    && CappedOk(j.description, DescriptionMax)
    && CappedOk(j.company, CompanyMax)
    && CappedOk(j.location, LocationMax)
    && j.salary.Some? && j.salary.value >= 0
    && PresentText(j.contact) && EmailPattern.MatchesEmail(j.contact.value)
    && CappedOk(j.requirements, RequirementsMax)
    && (j.responsibilities.Some? ==> Utf16Length(j.responsibilities.value) <= ResponsibilitiesMax)
    && PresentText(j.jobType) && j.jobType.value in JobTypes
    && j.createdBy.Some? && IsValidId(j.createdBy.value)
  }

  /** The rules of one path. */
  predicate PathOk(j: Job, p: Path) {
    match p
    case TitlePath => TitleOk(j.title)
    case DescriptionPath => CappedOk(j.description, DescriptionMax)
    case CompanyPath => CappedOk(j.company, CompanyMax)
    case LocationPath => CappedOk(j.location, LocationMax)
    case SalaryPath => j.salary.Some? && j.salary.value >= 0
    case ContactPath => PresentText(j.contact) && EmailPattern.MatchesEmail(j.contact.value)
    case RequirementsPath => CappedOk(j.requirements, RequirementsMax)
    case ResponsibilitiesPath => j.responsibilities.Some? ==> Utf16Length(j.responsibilities.value) <= ResponsibilitiesMax
    case JobTypePath => PresentText(j.jobType) && j.jobType.value in JobTypes
    case CreatedByPath => j.createdBy.Some? && IsValidId(j.createdBy.value)
  }

  /** A job is valid exactly when each of its paths obeys its own rules. */
  lemma ValidIsEveryPath(j: Job)
    ensures Valid(j) <==> forall p :: PathOk(j, p)
  {
    if Valid(j) {
      forall p
        ensures PathOk(j, p)
      {
      }
    } else {
      assert !PathOk(j, TitlePath) || !PathOk(j, DescriptionPath) || !PathOk(j, CompanyPath)
        || !PathOk(j, LocationPath) || !PathOk(j, SalaryPath) || !PathOk(j, ContactPath)
        || !PathOk(j, RequirementsPath) || !PathOk(j, ResponsibilitiesPath) || !PathOk(j, JobTypePath)
        || !PathOk(j, CreatedByPath);
    }
  }

  /** The document sets the path. */
  predicate Given(j: Job, p: Path) {
    match p
    case TitlePath => j.title.Some?
    case DescriptionPath => j.description.Some?
    case CompanyPath => j.company.Some?
    case LocationPath => j.location.Some?
    case SalaryPath => j.salary.Some?
    case ContactPath => j.contact.Some?
    case RequirementsPath => j.requirements.Some?
    case ResponsibilitiesPath => j.responsibilities.Some?
    case JobTypePath => j.jobType.Some?
    case CreatedByPath => j.createdBy.Some?
  }

  /** `a` and `b` hold the same value at path `p`. */
  predicate SameAt(a: Job, b: Job, p: Path) {
    match p
    case TitlePath => a.title == b.title
    case DescriptionPath => a.description == b.description
    case CompanyPath => a.company == b.company
    case LocationPath => a.location == b.location
    case SalaryPath => a.salary == b.salary
    case ContactPath => a.contact == b.contact
    case RequirementsPath => a.requirements == b.requirements
    case ResponsibilitiesPath => a.responsibilities == b.responsibilities
    case JobTypePath => a.jobType == b.jobType
    case CreatedByPath => a.createdBy == b.createdBy
  }

  /**
   * What the update validators (`runValidators`) accept: every path the
   * update sets obeys that path's rules; a path it does not set is not checked.
   */
  predicate UpdateOk(u: Job) {
    forall p :: Given(u, p) ==> PathOk(u, p)
  }

  /** A required string path with a length cap: `required` runs first, then `maxlength`. */
  function CappedText(path: Path, v: Option<string>, requiredMsg: string, max: nat, maxMsg: string): (r: seq<FieldError>)
    ensures r == [] <==> CappedOk(v, max)
    ensures |r| <= 1 && forall e <- r :: e.path == path
  {
    if !PresentText(v) then [FieldError(path, requiredMsg)]
    else if Utf16Length(v.value) > max then [FieldError(path, maxMsg)]
    else []
  }

  function SalaryErrors(v: Option<int>): (r: seq<FieldError>)
    ensures r == [] <==> v.Some? && v.value >= 0
    ensures |r| <= 1 && forall e <- r :: e.path == SalaryPath
  {
    if v.None? then [FieldError(SalaryPath, "Please provide a salary")]
    else if v.value < 0 then [FieldError(SalaryPath, "Salary cannot be negative")]
    else []
  }

  function ContactErrors(v: Option<string>): (r: seq<FieldError>)
    ensures r == [] <==> PresentText(v) && EmailPattern.MatchesEmail(v.value)
    ensures |r| <= 1 && forall e <- r :: e.path == ContactPath
  {
    if !PresentText(v) then [FieldError(ContactPath, "Please provide contact information")]
    else if !EmailPattern.MatchesEmail(v.value) then [FieldError(ContactPath, "Please provide a valid email")]
    else []
  }

  /** `responsibilities` is optional; only its cap applies. */
  function ResponsibilitiesErrors(v: Option<string>): (r: seq<FieldError>)
    ensures r == [] <==> (v.Some? ==> Utf16Length(v.value) <= ResponsibilitiesMax)
    ensures |r| <= 1 && forall e <- r :: e.path == ResponsibilitiesPath
  {
    if v.Some? && Utf16Length(v.value) > ResponsibilitiesMax then
      [FieldError(ResponsibilitiesPath, "Responsibilities cannot be more than 500 characters")]
    else []
  }

  /** `jobType` has no message of its own for the enum, so the library's default wording is used. */
  function JobTypeErrors(v: Option<string>): (r: seq<FieldError>)
    ensures r == [] <==> PresentText(v) && v.value in JobTypes
    ensures |r| <= 1 && forall e <- r :: e.path == JobTypePath
  {
    if !PresentText(v) then [FieldError(JobTypePath, "Please provide job type")]
    else if v.value !in JobTypes then
      [FieldError(JobTypePath, "`" + v.value + "` is not a valid enum value for path `jobType`.")]
    else []
  }

  /** `createdBy` is a required ObjectId reference; a text that is not an id fails to cast. */
  function CreatedByErrors(v: Option<Id>): (r: seq<FieldError>)
    ensures r == [] <==> v.Some? && IsValidId(v.value)
    ensures |r| <= 1 && forall e <- r :: e.path == CreatedByPath
  {
    if v.None? then [FieldError(CreatedByPath, "Path `createdBy` is required.")]
    else if !IsValidId(v.value) then [FieldError(CreatedByPath, "Cast to ObjectId failed for value \"" + v.value + "\" at path \"createdBy\"")]
    else []
  }

  /** The validators of one path, with the schema's messages. */
  function PathErrors(j: Job, p: Path): (r: seq<FieldError>)
    ensures r == [] <==> PathOk(j, p)
    ensures |r| <= 1 && forall e <- r :: e.path == p
  {
    match p
    case TitlePath => CappedText(p, j.title, "Please provide a job title", TitleMax, "Title cannot be more than 100 characters")
    case DescriptionPath =>
      CappedText(p, j.description, "Please provide a job description", DescriptionMax, "Description cannot be more than 1000 characters")
    case CompanyPath => CappedText(p, j.company, "Please provide a company name", CompanyMax, "Company name cannot be more than 50 characters")
    case LocationPath => CappedText(p, j.location, "Please provide a location", LocationMax, "Location cannot be more than 100 characters")
    case SalaryPath => SalaryErrors(j.salary)
    case ContactPath => ContactErrors(j.contact)
    case RequirementsPath =>
      CappedText(p, j.requirements, "Please provide job requirements", RequirementsMax, "Requirements cannot be more than 500 characters")
    case ResponsibilitiesPath => ResponsibilitiesErrors(j.responsibilities)
    case JobTypePath => JobTypeErrors(j.jobType)
    case CreatedByPath => CreatedByErrors(j.createdBy)
  }

  /** Errors listed in the schema's path order, so no path has two. */
  predicate InPathOrder(errs: seq<FieldError>) {
    forall a, b :: 0 <= a < b < |errs| ==> Rank(errs[a].path) < Rank(errs[b].path)
  }

  /** Putting one path's errors in front of the errors of later paths keeps the path order. */
  lemma PrependPath(block: seq<FieldError>, rest: seq<FieldError>, k: nat)
    requires |block| <= 1 && forall e <- block :: Rank(e.path) == k
    requires InPathOrder(rest) && forall e <- rest :: Rank(e.path) > k
    ensures InPathOrder(block + rest)
  {
    forall a, b | 0 <= a < b < |block + rest|
      ensures Rank((block + rest)[a].path) < Rank((block + rest)[b].path)
    {
      if a < |block| {
        assert (block + rest)[b] == rest[b - |block|];
      }
    }
  }

  /** A path is checked when every path is (`save`) or when the document sets it (an update). */
  predicate Checked(j: Job, all: bool, p: Path) {
    all || Given(j, p)
  }

  /**
   * The errors of the checked paths from position `k` on, in the schema's
   * path order. Each checked path contributes its own errors and nothing else.
   */
  function ErrorsFrom(j: Job, all: bool, k: nat): (errs: seq<FieldError>)
    requires k <= 10
    ensures InPathOrder(errs) && |errs| <= 10 - k
    ensures forall e <- errs :: k <= Rank(e.path)
    decreases 10 - k
  {
    if k == 10 then []
    else
      var p := PathAt(k);
      var block := if Checked(j, all, p) then PathErrors(j, p) else [];
      var rest := ErrorsFrom(j, all, k + 1);
      PrependPath(block, rest, k);
      block + rest
  }

  /** The errors from position `k` on are exactly the errors of the checked paths there. */
  lemma {:induction false} ErrorsFromMembers(j: Job, all: bool, k: nat)
    requires k <= 10
    ensures forall e :: e in ErrorsFrom(j, all, k) <==> k <= Rank(e.path) && Checked(j, all, e.path) && e in PathErrors(j, e.path)
    decreases 10 - k
  {
    if k < 10 {
      ErrorsFromMembers(j, all, k + 1);
      var p := PathAt(k);
      var block := if Checked(j, all, p) then PathErrors(j, p) else [];
      var rest := ErrorsFrom(j, all, k + 1);
      assert ErrorsFrom(j, all, k) == block + rest;
      forall e: FieldError
        ensures e in block + rest <==> k <= Rank(e.path) && Checked(j, all, e.path) && e in PathErrors(j, e.path)
      {
        if Rank(e.path) == k {
          assert e.path == p;
        }
      }
    }
  }

  /** No error is listed exactly when every checked path from position `k` on obeys its rules. */
  lemma ErrorsFromEmpty(j: Job, all: bool, k: nat)
    requires k <= 10
    ensures ErrorsFrom(j, all, k) == [] <==> forall p :: k <= Rank(p) && Checked(j, all, p) ==> PathOk(j, p)
  {
    var errs := ErrorsFrom(j, all, k);
    ErrorsFromMembers(j, all, k);
    if errs != [] {
      assert errs[0] in errs;
    }
    forall p | k <= Rank(p) && Checked(j, all, p) && !PathOk(j, p)
      ensures errs != []
    {
      assert PathErrors(j, p)[0] in errs;
    }
  }

  /** No error is listed exactly when every checked path obeys its rules. */
  lemma AllErrorsEmpty(j: Job, all: bool)
    ensures ErrorsFrom(j, all, 0) == [] <==> forall p :: Checked(j, all, p) ==> PathOk(j, p)
  {
    ErrorsFromEmpty(j, all, 0);
  }

  /** The errors listed are exactly the errors of the checked paths. */
  lemma AllErrorsMembers(j: Job, all: bool)
    ensures forall e :: e in ErrorsFrom(j, all, 0) <==> Checked(j, all, e.path) && e in PathErrors(j, e.path)
  {
    ErrorsFromMembers(j, all, 0);
  }

  /** Every failing rule of `save`, in the schema's path order. */
  function ValidationErrors(j: Job): (errs: seq<FieldError>)
    ensures errs == [] <==> Valid(j)
    ensures |errs| <= 10
  {
    ValidIsEveryPath(j);
    AllErrorsEmpty(j, true);
    ErrorsFrom(j, true, 0)
  }

  /**
   * The errors of `save` are each path's own: every error is one its path's
   * validators give, every failing path's error is listed, at most one per
   * path, in the schema's path order.
   */
  lemma ValidationErrorsPerPath(j: Job)
    ensures forall e :: e in ValidationErrors(j) <==> e in PathErrors(j, e.path)
    ensures InPathOrder(ValidationErrors(j))
    ensures forall a, b :: 0 <= a < b < |ValidationErrors(j)| ==> ValidationErrors(j)[a].path != ValidationErrors(j)[b].path
  {
    var errs := ValidationErrors(j);
    AllErrorsMembers(j, true);
    forall a, b | 0 <= a < b < |errs|
      ensures errs[a].path != errs[b].path
    {
      assert Rank(errs[a].path) < Rank(errs[b].path);
    }
  }

  /** Every failing rule of the update validators: errors only for the paths the update sets, each its own. */
  function UpdateErrors(u: Job): (errs: seq<FieldError>)
    ensures errs == [] <==> UpdateOk(u)
    ensures |errs| <= 10
  {
    AllErrorsEmpty(u, false);
    ErrorsFrom(u, false, 0)
  }

  /** The update validators report only paths the update sets, each with that path's own error, in path order. */
  lemma UpdateErrorsPerPath(u: Job)
    ensures forall e :: e in UpdateErrors(u) <==> Given(u, e.path) && e in PathErrors(u, e.path)
    ensures InPathOrder(UpdateErrors(u))
  {
    AllErrorsMembers(u, false);
  }

  function JoinErrors(errs: seq<FieldError>): string {
    if errs == [] then ""
    else if |errs| == 1 then PathName(errs[0].path) + ": " + errs[0].message
    else PathName(errs[0].path) + ": " + errs[0].message + ", " + JoinErrors(errs[1..])
  }

  /** The message of the validation error raised by `save`. */
  function ValidationMessage(errs: seq<FieldError>): string {
    "Job validation failed: " + JoinErrors(errs)
  }

  // ---------------------------------------------------------------------
  // Properties of the rules
  // ---------------------------------------------------------------------

  /** A valid job has all nine required paths and every length cap holds. */
  lemma ValidHasRequiredFieldsWithinCaps(j: Job)
    requires Valid(j)
    ensures j.title.Some? && j.description.Some? && j.company.Some? && j.location.Some?
    ensures j.salary.Some? && j.contact.Some? && j.requirements.Some? && j.jobType.Some? && j.createdBy.Some?
    ensures Utf16Length(j.title.value) <= 100 && Utf16Length(j.description.value) <= 1000
    ensures Utf16Length(j.company.value) <= 50 && Utf16Length(j.location.value) <= 100
    ensures Utf16Length(j.requirements.value) <= 500
    ensures j.responsibilities.Some? ==> Utf16Length(j.responsibilities.value) <= 500
    ensures |j.title.value| <= 100 && |j.description.value| <= 1000 && |j.company.value| <= 50
  {
  }

  /** The `required` message of a path; `responsibilities` is not required. */
  function RequiredMessage(p: Path): Option<string> {
    match p
    case TitlePath => Some("Please provide a job title")
    case DescriptionPath => Some("Please provide a job description")
    case CompanyPath => Some("Please provide a company name")
    case LocationPath => Some("Please provide a location")
    case SalaryPath => Some("Please provide a salary")
    case ContactPath => Some("Please provide contact information")
    case RequirementsPath => Some("Please provide job requirements")
    case ResponsibilitiesPath => None
    case JobTypePath => Some("Please provide job type")
    case CreatedByPath => Some("Path `createdBy` is required.")
  }

  /** A missing required path is reported under that path with its own `required` message. */
  lemma MissingFieldReported(j: Job, p: Path)
    ensures !Given(j, p) && RequiredMessage(p).Some? ==> FieldError(p, RequiredMessage(p).value) in ValidationErrors(j)
  {
    if !Given(j, p) && RequiredMessage(p).Some? {
      ValidationErrorsPerPath(j);
      assert PathErrors(j, p) == [FieldError(p, RequiredMessage(p).value)];
    }
  }

  /** The salary rule: a negative salary is refused, zero and any positive salary pass. */
  lemma SalaryRule(n: int)
    ensures SalaryErrors(Some(n)) == [] <==> n >= 0
    ensures n < 0 ==> SalaryErrors(Some(n)) == [FieldError(SalaryPath, "Salary cannot be negative")]
  {
  }

  /** The job type must be one of exactly five strings. */
  lemma JobTypeRule(t: string)
    ensures JobTypeErrors(Some(t)) == [] <==>
      t == "Full-time" || t == "Part-time" || t == "Contract" || t == "Internship" || t == "Remote"
  {
  }

  /** A valid contact has the shape of the address pattern: one '@', a word character first, a short final label. */
  lemma ValidContactShape(j: Job)
    requires Valid(j)
    ensures EmailPattern.PatternMatches(j.contact.value)
    ensures IsWordChar(j.contact.value[0])
    ensures EmailPattern.EndsWithLabel(j.contact.value, 2) || EmailPattern.EndsWithLabel(j.contact.value, 3)
  {
    EmailPattern.MatchesEmailIsPattern(j.contact.value);
    EmailPattern.AcceptedContactShape(j.contact.value);
  }

  /**
   * The title of a prepared job that passes the title rule (as every valid
   * one does) is trimmed, non-empty, and its cap applies to the trimmed text.
   */
  lemma PreparedTitle(j: Job)
    requires TitleOk(Prepare(j).title)
    ensures j.title.Some?
    ensures Prepare(j).title == Some(Trim(j.title.value))
    ensures 0 < |Trim(j.title.value)| && Utf16Length(Trim(j.title.value)) <= TitleMax
    ensures Trim(Prepare(j).title.value) == Prepare(j).title.value
  {
    TrimIdempotent(j.title.value);
  }

  /** A title of only whitespace, the empty one included, trims to nothing and is refused as missing. */
  lemma BlankTitleRefused(j: Job)
    requires j.title.Some? && forall k :: 0 <= k < |j.title.value| ==> IsSpace(j.title.value[k])
    ensures Prepare(j).title == Some("")
    ensures FieldError(TitlePath, "Please provide a job title") in ValidationErrors(Prepare(j))
  {
    assert TrimStart(j.title.value) == [];
    MissingFieldReported(Prepare(j), TitlePath);
    assert PathErrors(Prepare(j), TitlePath) == [FieldError(TitlePath, "Please provide a job title")];
  }

  /** The default fits its cap, so filling it in never turns a valid job invalid, nor an invalid one valid. */
  lemma DefaultKeepsValidity(j: Job)
    ensures Utf16Length(DefaultResponsibilities) <= ResponsibilitiesMax
    ensures Valid(ApplyDefaults(j)) <==> Valid(j)
    ensures ApplyDefaults(j).responsibilities == Some(j.responsibilities.GetOr("Not specified"))
  {
  }
}
