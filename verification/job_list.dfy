/**
 * The public job list page: the three filters over the fetched jobs (a
 * case-insensitive search, a job-type choice and a salary band), the
 * badge colour of a job type, and the filter state with its reset.
 */
module JobList {
  import opened Text
  import opened Lists
  import opened JobSchema

  /** The fields the search reads without a guard; every job the server stores has them. */
  predicate Searchable(j: Job) {
    j.title.Some? && j.company.Some? && j.description.Some?
  }

  lemma ValidJobSearchable(j: Job)
    requires JobSchema.Valid(j)
    ensures Searchable(j)
  {
    ValidHasRequiredFieldsWithinCaps(j);
  }

  /** The search term occurs, ignoring case, in the title, the company or the description. */
  predicate MatchesSearch(j: Job, term: string)
    requires Searchable(j)
  {
    || IncludesIgnoreCase(j.title.value, term)
    || IncludesIgnoreCase(j.company.value, term)
    || IncludesIgnoreCase(j.description.value, term)
  }

  /** "All" or exactly the job's type. */
  predicate MatchesType(j: Job, selected: string) {
    selected == "All" || j.jobType == Some(selected)
  }

  /** The salary range keys the page offers, besides "All". */
  const SalaryBands: seq<string> := ["0-50k", "50k-100k", "100k-150k", "150k+"]

  /** The band test of one key; a key outside the four passes every salary. */
  predicate InBand(salary: int, range: string) {
    if range == "0-50k" then salary <= 50000
    else if range == "50k-100k" then 50000 < salary <= 100000
    else if range == "100k-150k" then 100000 < salary <= 150000
    else if range == "150k+" then 150000 < salary
    else true
  }

  /** `job.salary` is truthy: present and not zero. */
  predicate HasSalary(j: Job) {
    j.salary.Some? && j.salary.value != 0
  }

  /** The band is tested only for a range other than "All" and a job with a salary. */
  predicate MatchesSalary(j: Job, range: string) {
    range == "All" || !HasSalary(j) || InBand(j.salary.value, range)
  }

  predicate Passes(j: Job, term: string, selected: string, range: string)
    requires Searchable(j)
  {
    MatchesSearch(j, term) && MatchesType(j, selected) && MatchesSalary(j, range)
  }

  /** `filteredJobs`: the jobs that pass all three tests, in their order. */
  function FilterJobs(jobs: seq<Job>, term: string, selected: string, range: string): (r: seq<Job>)
    requires forall j <- jobs :: Searchable(j)
    ensures SubsequenceOf(r, jobs)
    ensures forall j <- r :: Searchable(j) && Passes(j, term, selected, range)
    ensures forall j <- jobs :: Passes(j, term, selected, range) ==> j in r
    ensures |r| <= |jobs|
    ensures (forall j <- jobs :: Passes(j, term, selected, range)) ==> r == jobs
    ensures forall j <- jobs :: multiset(r)[j] == if Passes(j, term, selected, range) then multiset(jobs)[j] else 0
  {
    if jobs == [] then []
    else
      var rest := FilterJobs(jobs[1..], term, selected, range);
      assert jobs == [jobs[0]] + jobs[1..];
      SubsequenceBounds(rest, jobs[1..]);
      assert forall j :: j !in jobs[1..] ==> multiset(rest)[j] == 0 && multiset(jobs[1..])[j] == 0;
      if Passes(jobs[0], term, selected, range) then [jobs[0]] + rest else rest
  }

  /** The empty search, "All" types and "All" salaries let every job through. */
  lemma DefaultsPassEverything(j: Job)
    requires Searchable(j)
    ensures Passes(j, "", "All", "All")
  {
    IncludesIgnoreCaseEmpty(j.title.value);
  }

  /** With the default filters the page shows the whole list. */
  lemma DefaultFiltersShowAll(jobs: seq<Job>)
    requires forall j <- jobs :: Searchable(j)
    ensures FilterJobs(jobs, "", "All", "All") == jobs
  {
    forall j <- jobs
      ensures Passes(j, "", "All", "All")
    {
      DefaultsPassEverything(j);
    }
  }

  /** Every salary falls in exactly one of the four bands. */
  lemma BandsPartition(salary: int)
    ensures exists k :: k in SalaryBands && InBand(salary, k)
    ensures forall k1, k2 :: k1 in SalaryBands && k2 in SalaryBands && InBand(salary, k1) && InBand(salary, k2) ==> k1 == k2
  {
    if salary <= 50000 {
      assert InBand(salary, SalaryBands[0]);
    } else if salary <= 100000 {
      assert InBand(salary, SalaryBands[1]);
    } else if salary <= 150000 {
      assert InBand(salary, SalaryBands[2]);
    } else {
      assert InBand(salary, SalaryBands[3]);
    }
  }

  /** When the salary test is skipped, and what it is otherwise. */
  lemma SalaryRule(j: Job, range: string)
    ensures range == "All" || range !in SalaryBands || j.salary == None || j.salary == Some(0) ==> MatchesSalary(j, range)
    ensures range in SalaryBands && HasSalary(j) ==> (MatchesSalary(j, range) <==> InBand(j.salary.value, range))
  {
  }

  /** A job whose salary lies outside the chosen band is hidden. */
  lemma OutOfBandHidden(jobs: seq<Job>, term: string, selected: string, range: string, j: Job)
    requires forall x <- jobs :: Searchable(x)
    requires range in SalaryBands && HasSalary(j) && !InBand(j.salary.value, range)
    ensures j !in FilterJobs(jobs, term, selected, range)
  {
  }

  /** The fallback badge colour. */
  const Grey := "bg-gray-100 text-gray-700"

  /** The badge colours of the five job types. */
  const TypeColors: map<string, string> := map[
    "Full-time" := "bg-emerald-100 text-emerald-700",
    "Part-time" := "bg-blue-100 text-blue-700",
    "Contract" := "bg-amber-100 text-amber-700",
    "Internship" := "bg-purple-100 text-purple-700",
    "Remote" := "bg-cyan-100 text-cyan-700"
  ]

  /** `getJobTypeColor`: the colour of a known type, grey for anything else. */
  function JobTypeColor(t: Option<string>): (r: string)
    ensures r == Grey <==> !(t.Some? && t.value in JobTypes)
    ensures t.Some? && t.value in JobTypes ==> r in TypeColors.Values
  {
    if t.Some? && t.value in TypeColors then TypeColors[t.value] else Grey
  }

  /** The five types the schema allows get five different colours. */
  lemma TypeColorsDistinct()
    ensures TypeColors.Keys == set t | t in JobTypes
    ensures forall a, b :: a in TypeColors && b in TypeColors && a != b ==> TypeColors[a] != TypeColors[b]
  {
  }

  /** The list page's state: the fetched jobs and the three filter values. */
  class JobListPage {
    var jobs: seq<Job>
    var searchTerm: string
    var selectedType: string
    var salaryRange: string

    ghost predicate Valid()
      reads this
    {
      forall j <- jobs :: Searchable(j)
    }

    predicate HasDefaultFilters()
      reads this
    {
      searchTerm == "" && selectedType == "All" && salaryRange == "All"
    }

    /** The jobs on screen. */
    function Visible(): (r: seq<Job>)
      reads this
      requires Valid()
      ensures SubsequenceOf(r, jobs)
    {
      FilterJobs(jobs, searchTerm, selectedType, salaryRange)
    }

    constructor ()
      ensures Valid() && jobs == [] && HasDefaultFilters()
    {
      jobs := [];
      searchTerm := "";
      selectedType := "All";
      salaryRange := "All";
    }

    /** A successful fetch replaces the list; the filters stay. */
    method Loaded(fetched: seq<Job>)
      requires forall j <- fetched :: Searchable(j)
      modifies this
      ensures Valid() && jobs == fetched
      ensures searchTerm == old(searchTerm) && selectedType == old(selectedType) && salaryRange == old(salaryRange)
    {
      jobs := fetched;
    }

    method SetSearchTerm(term: string)
      modifies this
      ensures searchTerm == term
      ensures jobs == old(jobs) && selectedType == old(selectedType) && salaryRange == old(salaryRange)
    {
      searchTerm := term;
    }

    method SetSelectedType(selected: string)
      modifies this
      ensures selectedType == selected
      ensures jobs == old(jobs) && searchTerm == old(searchTerm) && salaryRange == old(salaryRange)
    {
      selectedType := selected;
    }

    method SetSalaryRange(range: string)
      modifies this
      ensures salaryRange == range
      ensures jobs == old(jobs) && searchTerm == old(searchTerm) && selectedType == old(selectedType)
    {
      salaryRange := range;
    }

    /** Either "Clear All Filters" button: the defaults return and every job shows. */
    method ClearFilters()
      requires Valid()
      modifies this
      ensures HasDefaultFilters() && jobs == old(jobs)
      ensures Valid() && Visible() == jobs
    {
      searchTerm := "";
      selectedType := "All";
      salaryRange := "All";
      DefaultFiltersShowAll(jobs);
    }

    /** The "Showing n of m" line. */
    method Counts() returns (shown: nat, total: nat)
      requires Valid()
      ensures shown == |Visible()| && total == |jobs|
      ensures shown <= total
    {
      shown := |Visible()|;
      total := |jobs|;
    }
  }
}
