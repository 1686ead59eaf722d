/**
 * The owner's page of postings: a search over title and company, the type
 * filter, the list after a delete, the "Active Types" count, the card
 * gradients and the filter reset.
 */
module MyJobs {
  import opened Text
  import opened Lists
  import opened JobSchema
  import JobList
  import JobApi

  /** The fields this page's search reads without a guard. */
  predicate Searchable(p: Posting) {
    p.job.title.Some? && p.job.company.Some?
  }

  /** The search term occurs, ignoring case, in the title or the company (not the description). */
  predicate MatchesSearch(p: Posting, term: string)
    requires Searchable(p)
  {
    IncludesIgnoreCase(p.job.title.value, term) || IncludesIgnoreCase(p.job.company.value, term)
  }

  predicate Passes(p: Posting, term: string, selected: string)
    requires Searchable(p)
  {
    MatchesSearch(p, term) && JobList.MatchesType(p.job, selected)
  }

  /** `filteredJobs`: the postings that pass both tests, in their order. */
  function FilterPostings(ps: seq<Posting>, term: string, selected: string): (r: seq<Posting>)
    requires forall p <- ps :: Searchable(p)
    ensures SubsequenceOf(r, ps)
    ensures forall p <- r :: Searchable(p) && Passes(p, term, selected)
    ensures forall p <- ps :: Passes(p, term, selected) ==> p in r
    ensures |r| <= |ps|
    ensures (forall p <- ps :: Passes(p, term, selected)) ==> r == ps
    ensures forall p <- ps :: multiset(r)[p] == if Passes(p, term, selected) then multiset(ps)[p] else 0
  {
    if ps == [] then []
    else
      var rest := FilterPostings(ps[1..], term, selected);
      assert ps == [ps[0]] + ps[1..];
      SubsequenceBounds(rest, ps[1..]);
      assert forall p :: p !in ps[1..] ==> multiset(rest)[p] == 0 && multiset(ps[1..])[p] == 0;
      if Passes(ps[0], term, selected) then [ps[0]] + rest else rest
  }

  /** The empty search and "All" keep the whole list. */
  lemma DefaultFiltersShowAll(ps: seq<Posting>)
    requires forall p <- ps :: Searchable(p)
    ensures FilterPostings(ps, "", "All") == ps
  {
    forall p <- ps
      ensures Passes(p, "", "All")
    {
      IncludesIgnoreCaseEmpty(p.job.title.value);
    }
  }

  /** The list after deleting `id`: every posting with that id gone, the others in order. */
  function RemoveId(ps: seq<Posting>, id: Id): (r: seq<Posting>)
    ensures SubsequenceOf(r, ps)
    ensures forall p <- r :: p.id != id && p in ps
    ensures |r| == |ps| - CountId(ps, id)
    ensures forall p <- ps :: p.id != id ==> p in r
    ensures (forall p <- ps :: p.id != id) ==> r == ps
  {
    if ps == [] then []
    else
      var rest := RemoveId(ps[1..], id);
      assert ps == [ps[0]] + ps[1..];
      SubsequenceBounds(rest, ps[1..]);
      if ps[0].id != id then [ps[0]] + rest else rest
  }

  /** How many entries of `ps` carry `id`. */
  function CountId(ps: seq<Posting>, id: Id): (n: nat)
    ensures n <= |ps|
    ensures n == 0 <==> forall p <- ps :: p.id != id
  {
    if ps == [] then 0
    else
      assert ps == [ps[0]] + ps[1..];
      (if ps[0].id == id then 1 else 0) + CountId(ps[1..], id)
  }

  /** The job types among the postings, a missing type counting as one value: the "Active Types" set. */
  function TypesOf(ps: seq<Posting>): (r: set<Option<string>>)
    ensures forall t :: t in r <==> exists p <- ps :: p.job.jobType == t
    ensures |r| <= |ps|
  {
    if ps == [] then {}
    else
      assert ps == [ps[0]] + ps[1..];
      {ps[0].job.jobType} + TypesOf(ps[1..])
  }

  /** "Active Types" never exceeds the number of postings, nor five when every type is one the schema allows. */
  lemma ActiveTypesBound(ps: seq<Posting>)
    ensures |TypesOf(ps)| <= |ps|
    ensures (forall p <- ps :: p.job.jobType.Some? && p.job.jobType.value in JobTypes) ==> |TypesOf(ps)| <= 5
  {
    if forall p <- ps :: p.job.jobType.Some? && p.job.jobType.value in JobTypes {
      var allowed := AllowedTypes();
      forall t | t in TypesOf(ps)
        ensures t in allowed
      {
        var p :| p in ps && p.job.jobType == t;
      }
      SubsetCard(TypesOf(ps), allowed);
    }
  }

  /** The values a stored job's type can take. */
  function AllowedTypes(): (r: set<Option<string>>)
    ensures forall t :: t in r <==> t.Some? && t.value in JobTypes
    ensures |r| == 5
  {
    var r := {Some(JobTypes[0]), Some(JobTypes[1]), Some(JobTypes[2]), Some(JobTypes[3]), Some(JobTypes[4])};
    assert |{Some(JobTypes[0]), Some(JobTypes[1])}| == 2;
    assert |{Some(JobTypes[0]), Some(JobTypes[1]), Some(JobTypes[2])}| == 3;
    assert |{Some(JobTypes[0]), Some(JobTypes[1]), Some(JobTypes[2]), Some(JobTypes[3])}| == 4;
    r
  }

  lemma {:induction false} SubsetCard(a: set<Option<string>>, b: set<Option<string>>)
    requires a <= b
    ensures |a| <= |b|
    decreases |b|
  {
    if a != {} {
      var x :| x in a;
      SubsetCard(a - {x}, b - {x});
    }
  }

  /** The header gradient of a type on this page, slate for anything else. */
  const TypeGradients: map<string, string> := map[
    "Full-time" := "from-emerald-500 to-emerald-600",
    "Part-time" := "from-blue-500 to-blue-600",
    "Contract" := "from-amber-500 to-amber-600",
    "Internship" := "from-purple-500 to-purple-600",
    "Remote" := "from-cyan-500 to-cyan-600"
  ]

  const Slate := "from-slate-500 to-slate-600"

  function JobTypeGradient(t: Option<string>): (r: string)
    ensures r == Slate <==> !(t.Some? && t.value in JobTypes)
  {
    if t.Some? && t.value in TypeGradients then TypeGradients[t.value] else Slate
  }

  /** The card backgrounds, cycled through by position. */
  const CardGradients: seq<string> := [
    "from-blue-50 to-cyan-50",
    "from-purple-50 to-pink-50",
    "from-green-50 to-emerald-50",
    "from-amber-50 to-orange-50",
    "from-indigo-50 to-blue-50",
    "from-rose-50 to-pink-50"
  ]

  function CardGradient(index: nat): (r: string)
    ensures r in CardGradients
  {
    CardGradients[index % |CardGradients|]
  }

  /** The gradients repeat every six cards, and neighbouring cards never share one. */
  lemma CardGradientCycle(index: nat)
    ensures CardGradient(index + 6) == CardGradient(index)
    ensures CardGradient(index + 1) != CardGradient(index)
    ensures index < 6 ==> CardGradient(index) == CardGradients[index]
  {
    var k := index % 6;
    assert (index + 1) % 6 == if k == 5 then 0 else k + 1;
  }

  /** The page's state: the owner's postings and the two filter values. */
  class MyJobsPage {
    var jobs: seq<Posting>
    var loading: bool
    var searchTerm: string
    var filterType: string

    ghost predicate Valid()
      reads this
    {
      forall p <- jobs :: Searchable(p)
    }

    /** The postings on screen. */
    function Visible(): (r: seq<Posting>)
      reads this
      requires Valid()
      ensures SubsequenceOf(r, jobs)
    {
      FilterPostings(jobs, searchTerm, filterType)
    }

    /** The page as it mounts: no postings yet, loading, the default filters. */
    constructor ()
      ensures Valid() && jobs == [] && loading && searchTerm == "" && filterType == "All"
    {
      jobs := [];
      loading := true;
      searchTerm := "";
      filterType := "All";
    }

    /**
     * `fetchMyJobs` with the server's answer: a 2xx answer's list becomes
     * the page's list; any other status is an error (a toast, `failed`)
     * and the list stays as it was. Loading ends either way.
     */
    method FetchMyJobs(resp: JobApi.Response) returns (failed: bool)
      requires Valid()
      requires resp.body.JobsBody? ==> forall p <- resp.body.postings :: Searchable(p)
      modifies this
      ensures Valid() && !loading
      ensures failed <==> !(200 <= resp.status < 300)
      ensures !failed && resp.body.JobsBody? ==> jobs == resp.body.postings
      ensures failed || !resp.body.JobsBody? ==> jobs == old(jobs)
      ensures searchTerm == old(searchTerm) && filterType == old(filterType)
    {
      failed := !(200 <= resp.status < 300);
      if !failed && resp.body.JobsBody? {
        jobs := resp.body.postings;
      }
      loading := false;
    }

    /**
     * `handleDelete`: nothing happens unless the user confirms; the list
     * loses that id only when the server reports success. `requested`
     * says whether a request went out.
     */
    method HandleDelete(id: Id, confirmed: bool, succeeded: bool) returns (requested: bool)
      requires Valid()
      modifies this
      ensures Valid()
      ensures requested == confirmed
      ensures searchTerm == old(searchTerm) && filterType == old(filterType) && loading == old(loading)
      ensures confirmed && succeeded ==> jobs == RemoveId(old(jobs), id)
      ensures !(confirmed && succeeded) ==> jobs == old(jobs)
    {
      if !confirmed {
        return false;
      }
      requested := true;
      if succeeded {
        jobs := RemoveId(jobs, id);
      }
    }

    method SetSearchTerm(term: string)
      modifies this
      ensures searchTerm == term && jobs == old(jobs) && filterType == old(filterType) && loading == old(loading)
    {
      searchTerm := term;
    }

    method SetFilterType(selected: string)
      modifies this
      ensures filterType == selected && jobs == old(jobs) && searchTerm == old(searchTerm) && loading == old(loading)
    {
      filterType := selected;
    }

    /** "Clear filters": the defaults return and every posting shows. */
    method ClearFilters()
      requires Valid()
      modifies this
      ensures searchTerm == "" && filterType == "All" && jobs == old(jobs) && loading == old(loading)
      ensures Valid() && Visible() == jobs
    {
      searchTerm := "";
      filterType := "All";
      DefaultFiltersShowAll(jobs);
    }

    /** The "Active Types" figure. */
    method ActiveTypes() returns (n: nat)
      ensures n == |TypesOf(jobs)|
      ensures n <= |jobs|
    {
      n := |TypesOf(jobs)|;
    }
  }

  /**
   * The page mounting against this server: its request for
   * `/api/jobs/my-jobs` is answered 400 by the by-id route, so the fetch
   * fails, the error toast shows and the list stays empty.
   */
  method OpenPage(store: JobApi.JobStore, caller: Id, body: Job, freshId: Id, resultIdCheck: bool)
    returns (page: MyJobsPage, failed: bool)
    requires store.Valid() && IsCanonicalId(freshId) && freshId !in store.jobs
    modifies store
    ensures page.Valid() && failed && !page.loading
    ensures page.jobs == [] && page.Visible() == []
    ensures unchanged(store)
  {
    page := new MyJobsPage();
    var resp := store.Serve(JobApi.Get, "my-jobs", caller, body, freshId, resultIdCheck);
    failed := page.FetchMyJobs(resp);
  }
}
