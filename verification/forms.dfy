/**
 * The posting form both the create and the edit pages hold: nine text
 * fields, updated one field at a time, and the reply of the request a
 * submit sends.
 */
module Forms {
  import opened Text

  /** The `name` attribute of each input. */
  datatype Field =
    | Title | Description | Company | Location | Salary
    | Requirements | Responsibilities | Contact | JobType

  /** `formData`: every value is the text of its input. */
  datatype Form = Form(
    title: string,
    description: string,
    company: string,
    location: string,
    salary: string,
    requirements: string,
    responsibilities: string,
    contact: string,
    jobType: string)

  /** The job type a fresh form starts with. */
  const DefaultJobType := "Full-time"

  /** The form before anything is typed: every field blank, the type "Full-time". */
  const EmptyForm := Form("", "", "", "", "", "", "", "", DefaultJobType)

  function Get(form: Form, f: Field): string {
    match f
    case Title => form.title
    case Description => form.description
    case Company => form.company
    case Location => form.location
    case Salary => form.salary
    case Requirements => form.requirements
    case Responsibilities => form.responsibilities
    case Contact => form.contact
    case JobType => form.jobType
  }

  /** `{ ...prev, [name]: value }` */
  function Set(form: Form, f: Field, value: string): (r: Form)
    ensures Get(r, f) == value
    ensures forall g :: g != f ==> Get(r, g) == Get(form, g)
  {
    match f
    case Title => form.(title := value)
    case Description => form.(description := value)
    case Company => form.(company := value)
    case Location => form.(location := value)
    case Salary => form.(salary := value)
    case Requirements => form.(requirements := value)
    case Responsibilities => form.(responsibilities := value)
    case Contact => form.(contact := value)
    case JobType => form.(jobType := value)
  }

  /** Two forms that agree on every field are the same form. */
  lemma FieldsDetermineForm(a: Form, b: Form)
    requires forall f :: Get(a, f) == Get(b, f)
    ensures a == b
  {
    assert Get(a, Title) == Get(b, Title) && Get(a, Description) == Get(b, Description);
    assert Get(a, Company) == Get(b, Company) && Get(a, Location) == Get(b, Location);
    assert Get(a, Salary) == Get(b, Salary) && Get(a, Requirements) == Get(b, Requirements);
    assert Get(a, Responsibilities) == Get(b, Responsibilities) && Get(a, Contact) == Get(b, Contact);
    assert Get(a, JobType) == Get(b, JobType);
  }

  /** Writing back the value a field already holds changes nothing; a later write to the same field wins. */
  lemma SetLaws(form: Form, f: Field, v: string, w: string)
    ensures Set(form, f, Get(form, f)) == form
    ensures Set(Set(form, f, v), f, w) == Set(form, f, w)
  {
    FieldsDetermineForm(Set(form, f, Get(form, f)), form);
    FieldsDetermineForm(Set(Set(form, f, v), f, w), Set(form, f, w));
  }

  /** How a request a submit sends comes back. */
  datatype Reply = Succeeded | Failed(message: Option<string>)

  /** `err.response?.data?.message || fallback`: an absent or empty message gives the fallback. */
  function FailureText(message: Option<string>, fallback: string): (r: string)
    ensures message.Some? && message.value != "" ==> r == message.value
    ensures message.None? || message.value == "" ==> r == fallback
  {
    if message.Some? && message.value != "" then message.value else fallback
  }

  // ---------------------------------------------------------------------
  // A salary in the form is text; on the server it is a number.
  // ---------------------------------------------------------------------

  function DigitChar(d: nat): (c: char)
    requires d < 10
    ensures '0' <= c <= '9'
  {
    ('0' as int + d) as char
  }

  predicate AllDigits(s: string) {
    forall i :: 0 <= i < |s| ==> '0' <= s[i] <= '9'
  }

  /** The decimal digits of `n`, without leading zeros. */
  function DecimalText(n: nat): (r: string)
    ensures |r| > 0 && AllDigits(r)
    ensures r[0] == '0' ==> n == 0
  {
    if n < 10 then [DigitChar(n)] else DecimalText(n / 10) + [DigitChar(n % 10)]
  }

  /** The value of a string of decimal digits. */
  function DigitsValue(s: string): nat
    requires AllDigits(s)
  {
    if s == [] then 0 else 10 * DigitsValue(s[..|s| - 1]) + (s[|s| - 1] as int - '0' as int)
  }

  /** How a number shows in a text input. */
  function NumberText(n: int): string {
    if n < 0 then "-" + DecimalText(-n) else DecimalText(n)
  }

  /** `Number(s)` on the texts `NumberText` produces: an optional minus sign, then digits. */
  function ParseNumber(s: string): Option<int> {
    if |s| > 1 && s[0] == '-' && AllDigits(s[1..]) then Some(-(DigitsValue(s[1..]) as int))
    else if s != [] && AllDigits(s) then Some(DigitsValue(s) as int)
    else None
  }

  lemma {:induction false} DecimalRoundTrip(n: nat)
    ensures DigitsValue(DecimalText(n)) == n
  {
    if n >= 10 {
      DecimalRoundTrip(n / 10);
      var s := DecimalText(n);
      assert s[..|s| - 1] == DecimalText(n / 10);
    }
  }

  /** A salary shown in the form and sent back untouched is read as the same number. */
  lemma NumberRoundTrip(n: int)
    ensures ParseNumber(NumberText(n)) == Some(n)
  {
    if n < 0 {
      DecimalRoundTrip(-n);
      assert NumberText(n)[1..] == DecimalText(-n);
    } else {
      DecimalRoundTrip(n);
      assert '0' <= NumberText(n)[0] <= '9';
    }
  }
}
