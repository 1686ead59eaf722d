/**
 * The job API: the router's six handlers over the job collection.
 *
 * The collection is a `JobStore`: a map from document id to job, plus the
 * ids in insertion order. That order is the model's own fixed choice: the
 * store promises no order for an unsorted query, and no handler's contract
 * depends on it. Each handler is a method that returns the status code and
 * JSON body it sends. The caller's id is what the authentication
 * middleware attached to the request; the middleware itself is not part of
 * this model.
 */
module JobApi {
  import opened Text
  import opened JobSchema

  datatype Body =
    | JobBody(posting: Posting)
    | JobsBody(postings: seq<Posting>)
    | NullBody
    | ErrorBody(error: string)
    | FailureBody(error: string, message: string)
    | MessageBody(message: string)
    | NoRouteBody

  datatype Response = Response(status: int, body: Body)

  // ---------------------------------------------------------------------
  // Documents built by create and update
  // ---------------------------------------------------------------------

  /**
   * The document `create` builds: the eight fields it reads from the body
   * (responsibilities is not among them), the caller as owner, then the
   * schema's setters.
   */
  function NewJob(body: Job, caller: Id): (r: Job)
    ensures r.createdBy == Some(caller)
    ensures r.responsibilities == Some(DefaultResponsibilities)
    ensures r.title == (if body.title.Some? then Some(Trim(body.title.value)) else None)
    ensures r.description == body.description && r.company == body.company && r.location == body.location
    ensures r.salary == body.salary && r.contact == body.contact && r.requirements == body.requirements
    ensures r.jobType == body.jobType
  {
    Prepare(body.(responsibilities := None, createdBy := Some(caller)))
  }

  /** A path the update body holds replaces the stored one. */
  function Or<T>(given: Option<T>, current: Option<T>): Option<T> {
    if given.Some? then given else current
  }

  /**
   * The document `findByIdAndUpdate` leaves: every path present in the body
   * replaces the stored value (the title through its trimming setter); no
   * path is protected, `createdBy` included.
   */
  function Patch(current: Job, body: Job): Job {
    Job(
      if body.title.Some? then Some(Trim(body.title.value)) else current.title,
      Or(body.description, current.description),
      Or(body.company, current.company),
      Or(body.location, current.location),
      Or(body.salary, current.salary),
      Or(body.contact, current.contact),
      Or(body.requirements, current.requirements),
      Or(body.responsibilities, current.responsibilities),
      Or(body.jobType, current.jobType),
      Or(body.createdBy, current.createdBy))
  }

  /** What the setters guarantee of every stored document. */
  predicate IsPrepared(j: Job) {
    j.responsibilities.Some? && (j.title.Some? ==> IsTrimmed(j.title.value))
  }

  /** A stored document: its key is a canonical id, it passed validation and went through the setters. */
  predicate Stored(key: Id, j: Job) {
    IsCanonicalId(key) && JobSchema.Valid(j) && IsPrepared(j)
  }

  /**
   * An update keeps every path the body does not name and takes every path
   * it does, the title through its trimming setter; an empty body changes
   * nothing.
   */
  lemma PatchChangesOnlyGivenPaths(current: Job, body: Job)
    ensures forall p :: !Given(body, p) ==> SameAt(Patch(current, body), current, p)
    ensures forall p :: Given(body, p) && p != TitlePath ==> SameAt(Patch(current, body), body, p)
    ensures body.title.Some? ==> Patch(current, body).title == Some(Trim(body.title.value))
    ensures forall p :: Given(Patch(current, body), p) <==> Given(body, p) || Given(current, p)
    ensures (forall p :: !Given(body, p)) ==> Patch(current, body) == current
  {
    forall p
      ensures !Given(body, p) ==> SameAt(Patch(current, body), current, p)
      ensures Given(body, p) && p != TitlePath ==> SameAt(Patch(current, body), body, p)
      ensures Given(Patch(current, body), p) <==> Given(body, p) || Given(current, p)
    {
    }
    if forall p :: !Given(body, p) {
      assert !Given(body, TitlePath) && !Given(body, DescriptionPath) && !Given(body, CompanyPath);
      assert !Given(body, LocationPath) && !Given(body, SalaryPath) && !Given(body, ContactPath);
      assert !Given(body, RequirementsPath) && !Given(body, ResponsibilitiesPath) && !Given(body, JobTypePath);
      assert !Given(body, CreatedByPath);
    }
  }

  /**
   * Against a stored document, the update validators, which check only the
   * paths the body sets (after the title's setter), accept exactly the
   * updates whose result is a valid document.
   */
  lemma UpdateValidatorsDecide(current: Job, body: Job)
    requires JobSchema.Valid(current)
    ensures UpdateOk(TrimTitle(body)) <==> JobSchema.Valid(Patch(current, body))
  {
    var merged := Patch(current, body);
    ValidIsEveryPath(current);
    ValidIsEveryPath(merged);
    forall p
      ensures PathOk(merged, p) <==> (Given(TrimTitle(body), p) ==> PathOk(TrimTitle(body), p))
    {
    }
  }

  /** Updating a prepared document leaves it prepared. */
  lemma PatchKeepsPrepared(current: Job, body: Job)
    requires IsPrepared(current)
    ensures IsPrepared(Patch(current, body))
  {
  }

  // ---------------------------------------------------------------------
  // Sequences of ids
  // ---------------------------------------------------------------------

  predicate Distinct(s: seq<Id>) {
    forall a, b :: 0 <= a < b < |s| ==> s[a] != s[b]
  }

  /** `s` without `x`, the rest in the same order. */
  function Without(s: seq<Id>, x: Id): (r: seq<Id>)
    ensures forall y :: y in r <==> y in s && y != x
    ensures Distinct(s) ==> Distinct(r)
    ensures |r| <= |s|
  {
    if s == [] then []
    else if s[0] == x then Without(s[1..], x)
    else
      var rest := Without(s[1..], x);
      TailDistinct(s);
      [s[0]] + rest
  }

  /** Dropping the head of a sequence without repetitions leaves one without the head. */
  lemma TailDistinct(s: seq<Id>)
    requires s != []
    ensures Distinct(s) ==> Distinct(s[1..]) && s[0] !in s[1..]
  {
  }

  /** A sequence without repetitions is as long as the set of its elements is large. */
  lemma {:induction false} DistinctCard(s: seq<Id>, keys: set<Id>)
    requires Distinct(s)
    requires forall y :: y in keys <==> y in s
    ensures |keys| == |s|
  {
    if s != [] {
      var rest := keys - {s[0]};
      assert forall y :: y in rest <==> y in s[1..] by {
        forall y
          ensures y in rest <==> y in s[1..]
        {
          if y in s[1..] {
            var k :| 1 <= k < |s| && s[k] == y;
            assert s[0] != s[k];
          }
        }
      }
      DistinctCard(s[1..], rest);
    }
  }

  // ---------------------------------------------------------------------
  // The collection and the handlers
  // ---------------------------------------------------------------------

  /** The first of `ps` owned by `caller`: what `findOne({createdBy})` returns. */
  function FirstOwnedBy(ps: seq<Posting>, caller: Id): (r: Option<Posting>)
    ensures r.None? ==> forall p <- ps :: p.job.createdBy != Some(caller)
    ensures r.Some? ==> exists i :: 0 <= i < |ps| && ps[i] == r.value && r.value.job.createdBy == Some(caller)
                          && forall k :: 0 <= k < i ==> ps[k].job.createdBy != Some(caller)
  {
    if ps == [] then None
    else if ps[0].job.createdBy == Some(caller) then Some(ps[0])
    else
      var r := FirstOwnedBy(ps[1..], caller);
      if r.Some? then
        var i :| 0 <= i < |ps[1..]| && ps[1..][i] == r.value && r.value.job.createdBy == Some(caller)
                && forall k :: 0 <= k < i ==> ps[1..][k].job.createdBy != Some(caller);
        assert ps[i + 1] == r.value;
        r
      else r
  }

  class JobStore {
    var jobs: map<Id, Job>
    var order: seq<Id>

    /** Keys and order name the same documents, once each. */
    ghost predicate Indexed()
      reads this
    {
      && (forall k :: k in jobs <==> k in order)
      && Distinct(order)
    }

    /** Every document is a stored one, and the keys and the order agree. */
    ghost predicate Valid()
      reads this
    {
      && Indexed()
      && (forall k :: k in jobs ==> Stored(k, jobs[k]))
    }

    /** The collection in insertion order. */
    function Postings(): (ps: seq<Posting>)
      reads this
      requires Indexed()
      ensures |ps| == |order| == |jobs|
      ensures forall i :: 0 <= i < |ps| ==> ps[i].id == order[i] && ps[i].id in jobs && ps[i].job == jobs[ps[i].id]
    {
      DistinctCard(order, jobs.Keys);
      var js, ord := jobs, order;
      seq(|ord|, i requires 0 <= i < |ord| => Posting(ord[i], js[ord[i]]))
    }

    constructor ()
      ensures Valid() && jobs == map[] && order == []
    {
      jobs := map[];
      order := [];
    }

    /** Files a stored document under a new id, at the end of the order. */
    method Insert(key: Id, doc: Job)
      requires Valid() && key !in jobs && Stored(key, doc)
      modifies this
      ensures Valid()
      ensures jobs == old(jobs)[key := doc] && order == old(order) + [key]
    {
      jobs := jobs[key := doc];
      order := order + [key];
      assert Distinct(order) by {
        assert key !in old(order);
      }
    }

    /** Puts a stored document in place of the one filed under `key`; the order is kept. */
    method Replace(key: Id, doc: Job)
      requires Valid() && key in jobs && Stored(key, doc)
      modifies this
      ensures Valid()
      ensures jobs == old(jobs)[key := doc] && order == old(order)
    {
      jobs := jobs[key := doc];
      forall k | k in jobs
        ensures Stored(k, jobs[k])
      {
        if k != key {
          assert jobs[k] == old(jobs)[k];
        }
      }
    }

    /** POST /create */
    method Create(caller: Id, body: Job, freshId: Id) returns (resp: Response)
      requires Valid() && IsCanonicalId(freshId) && freshId !in jobs
      modifies this
      ensures Valid()
      ensures JobSchema.Valid(NewJob(body, caller)) ==>
        && resp == Response(201, JobBody(Posting(freshId, NewJob(body, caller))))
        && jobs == old(jobs)[freshId := NewJob(body, caller)] && order == old(order) + [freshId]
      ensures !JobSchema.Valid(NewJob(body, caller)) ==>
        && resp == Response(500, FailureBody("Failed to create job", ValidationMessage(ValidationErrors(NewJob(body, caller)))))
        && jobs == old(jobs) && order == old(order)
    {
      var doc := NewJob(body, caller);
      var errs := ValidationErrors(doc);
      if errs != [] {
        resp := Response(500, FailureBody("Failed to create job", ValidationMessage(errs)));
        return;
      }
      Insert(freshId, doc);
      resp := Response(201, JobBody(Posting(freshId, doc)));
    }

    /** GET /all-jobs: every stored job, nothing changed. */
    method AllJobs() returns (resp: Response)
      requires Valid()
      ensures resp.status == 200 && resp.body.JobsBody?
      ensures |resp.body.postings| == |jobs|
      ensures forall p <- resp.body.postings :: p.id in jobs && p.job == jobs[p.id]
      ensures forall k :: k in jobs ==> Posting(k, jobs[k]) in resp.body.postings
    {
      var ps := Postings();
      forall k | k in jobs
        ensures Posting(k, jobs[k]) in ps
      {
        var i :| 0 <= i < |order| && order[i] == k;
        assert ps[i] == Posting(k, jobs[k]);
      }
      resp := Response(200, JobsBody(ps));
    }

    /** GET /:id: a malformed id is 400, a well-formed absent one 404. */
    method GetById(id: Id) returns (resp: Response)
      requires Valid()
      ensures !IsValidId(id) ==> resp == Response(400, ErrorBody("Invaild job id"))
      ensures IsValidId(id) && Key(id) !in jobs ==> resp == Response(404, ErrorBody("Job Not found"))
      ensures IsValidId(id) && Key(id) in jobs ==> resp == Response(200, JobBody(Posting(Key(id), jobs[Key(id)])))
      ensures resp.status == 200 <==> IsValidId(id) && Key(id) in jobs
    {
      if !IsValidId(id) {
        return Response(400, ErrorBody("Invaild job id"));
      }
      var key := Key(id);
      if key !in jobs {
        return Response(404, ErrorBody("Job Not found"));
      }
      resp := Response(200, JobBody(Posting(key, jobs[key])));
    }

    /** GET /my-jobs: at most one job, the first the caller owns, or null. */
    method MyJobs(caller: Id) returns (resp: Response)
      requires Valid()
      ensures resp.status == 200
      ensures resp.body.NullBody? <==> forall k :: k in jobs ==> jobs[k].createdBy != Some(caller)
      ensures resp.body.JobBody? ==>
        && resp.body.posting.id in jobs
        && resp.body.posting.job == jobs[resp.body.posting.id]
        && resp.body.posting.job.createdBy == Some(caller)
      ensures resp.body.NullBody? || resp.body.JobBody?
    {
      var ps := Postings();
      match FirstOwnedBy(ps, caller)
      case None =>
        forall k | k in jobs
          ensures jobs[k].createdBy != Some(caller)
        {
          var i :| 0 <= i < |order| && order[i] == k;
          assert ps[i] in ps;
        }
        resp := Response(200, NullBody);
      case Some(p) =>
        resp := Response(200, JobBody(p));
    }

    /**
     * PUT /:id. A malformed id is 500. The update validators run before the
     * query reaches the collection, so a body they refuse is 500 "Failed to
     * update" whether or not the id is stored; an accepted body under an
     * absent id is 500 "not find id". Otherwise only that job changes,
     * whoever owns it. The last check of the handler, whether the updated
     * document passes `ObjectId.isValid`, is the parameter `resultIdCheck`.
     */
    method Update(id: Id, caller: Id, body: Job, resultIdCheck: bool) returns (resp: Response)
      requires Valid()
      modifies this
      ensures Valid()
      ensures !IsValidId(id) ==> resp == Response(500, ErrorBody("failed to fetch id")) && unchanged(this)
      ensures IsValidId(id) && !UpdateOk(TrimTitle(body)) ==>
        resp == Response(500, ErrorBody("Failed to update")) && unchanged(this)
      ensures IsValidId(id) && UpdateOk(TrimTitle(body)) && Key(id) !in old(jobs) ==>
        resp == Response(500, ErrorBody("not find id")) && unchanged(this)
      ensures IsValidId(id) && Key(id) in old(jobs) ==>
        (UpdateOk(TrimTitle(body)) <==> JobSchema.Valid(Patch(old(jobs)[Key(id)], body)))
      ensures IsValidId(id) && Key(id) in old(jobs) && JobSchema.Valid(Patch(old(jobs)[Key(id)], body)) ==>
        && jobs == old(jobs)[Key(id) := Patch(old(jobs)[Key(id)], body)]
        && order == old(order)
        && resp == (if resultIdCheck then Response(200, JobBody(Posting(Key(id), jobs[Key(id)])))
                    else Response(500, ErrorBody("not find id")))
      ensures resp.status != 200 ==> resp.body.ErrorBody?
    {
      if !IsValidId(id) {
        return Response(500, ErrorBody("failed to fetch id"));
      }
      if UpdateErrors(TrimTitle(body)) != [] {
        return Response(500, ErrorBody("Failed to update"));
      }
      var key := Key(id);
      if key !in jobs {
        return Response(500, ErrorBody("not find id"));
      }
      var merged := Patch(jobs[key], body);
      UpdateValidatorsDecide(jobs[key], body);
      PatchKeepsPrepared(jobs[key], body);
      Replace(key, merged);
      if resultIdCheck {
        resp := Response(200, JobBody(Posting(key, merged)));
      } else {
        resp := Response(500, ErrorBody("not find id"));
      }
    }

    /** DELETE /:id. A malformed id is 500, an absent one 404; the owner is not consulted. */
    method Delete(id: Id, caller: Id) returns (resp: Response)
      requires Valid()
      modifies this
      ensures Valid()
      ensures !IsValidId(id) ==> resp == Response(500, ErrorBody("Invaild Id")) && unchanged(this)
      ensures IsValidId(id) && Key(id) !in old(jobs) ==> resp == Response(404, ErrorBody("Job Not found")) && unchanged(this)
      ensures IsValidId(id) && Key(id) in old(jobs) ==>
        && resp == Response(200, MessageBody("Job Deleted Successfully"))
        && jobs == old(jobs) - {Key(id)}
        && order == Without(old(order), Key(id))
    {
      if !IsValidId(id) {
        return Response(500, ErrorBody("Invaild Id"));
      }
      var key := Key(id);
      if key !in jobs {
        return Response(404, ErrorBody("Job Not found"));
      }
      jobs := jobs - {key};
      order := Without(order, key);
      resp := Response(200, MessageBody("Job Deleted Successfully"));
    }

    /** The request of the router: the first registered route that matches runs. */
    method Serve(verb: Verb, segment: string, caller: Id, body: Job, freshId: Id, resultIdCheck: bool)
      returns (resp: Response)
      requires Valid() && IsCanonicalId(freshId) && freshId !in jobs
      modifies this
      ensures Valid()
      ensures Resolve(verb, segment).None? ==> resp == Response(404, NoRouteBody) && unchanged(this)
      ensures verb == Get && ToLower(segment) == "my-jobs" ==>
        resp == Response(400, ErrorBody("Invaild job id")) && unchanged(this)
    {
      if verb == Get && ToLower(segment) == "my-jobs" {
        MyJobsShadowed(segment);
      }
      match Resolve(verb, segment)
      case None =>
        resp := Response(404, NoRouteBody);
      case Some(h) =>
        match h
        case CreateJob => resp := Create(caller, body, freshId);
        case ListAllJobs => resp := AllJobs();
        case JobById => resp := GetById(segment);
        case ListMyJobs => resp := MyJobs(caller);
        case UpdateJob => resp := Update(segment, caller, body, resultIdCheck);
        case DeleteJob => resp := Delete(segment, caller);
    }
  }

  /**
   * The scenario of a posting's life: created, read back identical,
   * deleted, then not found.
   */
  method CreateReadDelete(store: JobStore, caller: Id, body: Job, freshId: Id)
    returns (created: Response, read: Response, deleted: Response, reread: Response)
    requires store.Valid() && IsCanonicalId(freshId) && freshId !in store.jobs
    requires JobSchema.Valid(NewJob(body, caller))
    modifies store
    ensures created == Response(201, JobBody(Posting(freshId, NewJob(body, caller))))
    ensures read == Response(200, JobBody(Posting(freshId, NewJob(body, caller))))
    ensures deleted == Response(200, MessageBody("Job Deleted Successfully"))
    ensures reread == Response(404, ErrorBody("Job Not found"))
  {
    created := store.Create(caller, body, freshId);
    read := store.GetById(freshId);
    deleted := store.Delete(freshId, caller);
    reread := store.GetById(freshId);
  }

  // ---------------------------------------------------------------------
  // Routing
  // ---------------------------------------------------------------------

  datatype Verb = Get | Post | Put | Delete

  /** A path segment under the router: a literal (lower-case) name or the `:id` parameter. */
  datatype Pattern = Literal(text: string) | Param

  datatype Handler = CreateJob | ListAllJobs | JobById | ListMyJobs | UpdateJob | DeleteJob

  datatype Route = Route(verb: Verb, pattern: Pattern, handler: Handler)

  /** The routes in the order they are registered. */
  const Routes: seq<Route> := [
    Route(Post, Literal("create"), CreateJob),
    Route(Get, Literal("all-jobs"), ListAllJobs),
    Route(Get, Param, JobById),
    Route(Get, Literal("my-jobs"), ListMyJobs),
    Route(Put, Param, UpdateJob),
    Route(Delete, Param, DeleteJob)
  ]

  /** Literals match without regard to case; `:id` matches any non-empty segment without '/'. */
  predicate RouteMatches(r: Route, verb: Verb, segment: string) {
    r.verb == verb &&
    match r.pattern
    case Literal(t) => ToLower(segment) == t
    case Param => |segment| > 0 && '/' !in segment
  }

  /** Index of the first route in `rs` that matches. */
  function FirstMatch(rs: seq<Route>, verb: Verb, segment: string): (r: Option<nat>)
    ensures r.None? ==> forall i :: 0 <= i < |rs| ==> !RouteMatches(rs[i], verb, segment)
    ensures r.Some? ==> r.value < |rs| && RouteMatches(rs[r.value], verb, segment)
                        && forall i :: 0 <= i < r.value ==> !RouteMatches(rs[i], verb, segment)
  {
    if rs == [] then None
    else if RouteMatches(rs[0], verb, segment) then Some(0)
    else match FirstMatch(rs[1..], verb, segment)
      case None => None
      case Some(i) => Some(i + 1)
  }

  /** The handler that answers a request. */
  function Resolve(verb: Verb, segment: string): Option<Handler> {
    match FirstMatch(Routes, verb, segment)
    case None => None
    case Some(i) => Some(Routes[i].handler)
  }

  /** A GET for "my-jobs" (in any case) is answered by the by-id handler with a malformed id. */
  lemma MyJobsShadowed(segment: string)
    requires ToLower(segment) == "my-jobs"
    ensures Resolve(Get, segment) == Some(JobById)
    ensures !IsValidId(segment)
  {
    assert |segment| == 7;
    assert RouteMatches(Routes[2], Get, segment);
    assert !RouteMatches(Routes[0], Get, segment) && !RouteMatches(Routes[1], Get, segment);
  }

  /** No request ever reaches the my-jobs handler. */
  lemma MyJobsUnreachable(verb: Verb, segment: string)
    ensures Resolve(verb, segment) != Some(ListMyJobs)
  {
    if verb == Get && ToLower(segment) == "my-jobs" {
      MyJobsShadowed(segment);
    }
  }
}
