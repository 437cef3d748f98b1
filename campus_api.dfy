/**
 * The paging client of the campus course API. HTTP requests and XML
 * parsing are outside the model: a request for a page is a function of
 * the `skip` and `top` query parameters, and fetching one course is a
 * function of its id.
 */
module CampusApi {
  import opened Wrappers

  /** One `resource` element of a page: the course id it carries, or a
      resource whose id could not be read or converted to an integer. */
  datatype Resource = Parsed(id: int) | Unparsable

  /** The answer to one `?$skip=..&$top=..` request: the page's resources
      and the total number of courses stated in its first child. */
  datatype Page = Page(resources: seq<Resource>, total: int)

  /** The step a client gets when it names none. */
  const DefaultStep: int := 25

  /** The step size the constructor keeps: the page size is always below
      100, an acceptable step is kept, and any other step becomes 50. */
  function ClampStep(step: int): (r: int)
    ensures r < 100
    ensures step < 100 ==> r == step
    ensures r != step ==> r == 50 && step >= 100
  {
    if step >= 100 then 50 else step
  }

  /** The ids of the parsable resources of a batch, in batch order. */
  function ParsedIds(batch: seq<Resource>): (ids: seq<int>)
    ensures |ids| <= |batch|
  {
    if batch == [] then []
    else
      var last := batch[|batch| - 1];
      ParsedIds(batch[..|batch| - 1]) + (if last.Parsed? then [last.id] else [])
  }

  /** Extraction distributes over the concatenation of batches, so the
      order of the ids is the order of the resources. */
  lemma {:induction false} ParsedIdsConcat(a: seq<Resource>, b: seq<Resource>)
    ensures ParsedIds(a + b) == ParsedIds(a) + ParsedIds(b)
  {
    if b != [] {
      var b' := b[..|b| - 1];
      var last := b[|b| - 1];
      assert (a + b)[..|a + b| - 1] == a + b';
      assert (a + b)[|a + b| - 1] == last;
      ParsedIdsConcat(a, b');
      var tail := if last.Parsed? then [last.id] else [];
      assert ParsedIds(a + b) == ParsedIds(a) + ParsedIds(b') + tail;
      assert ParsedIds(b) == ParsedIds(b') + tail;
    } else {
      assert a + b == a;
    }
  }

  /** An id is extracted exactly when some resource of the batch carries
      it, and nothing is dropped when every resource parses. */
  lemma {:induction false} ParsedIdsMembers(batch: seq<Resource>)
    ensures forall x :: x in ParsedIds(batch) <==> Parsed(x) in batch
    ensures (forall i :: 0 <= i < |batch| ==> batch[i].Parsed?) ==> |ParsedIds(batch)| == |batch|
  {
    if batch != [] {
      var init := batch[..|batch| - 1];
      ParsedIdsMembers(init);
      assert batch == init + [batch[|batch| - 1]];
      forall x
        ensures x in ParsedIds(batch) <==> Parsed(x) in batch
      {
        assert Parsed(x) in batch <==> Parsed(x) in init || Parsed(x) == batch[|batch| - 1];
      }
      if forall i :: 0 <= i < |batch| ==> batch[i].Parsed? {
        assert forall i :: 0 <= i < |init| ==> init[i] == batch[i];
      }
    }
  }

  /** One fetched course per id, in id order. */
  function FetchAll<X>(ids: seq<int>, courseById: int -> X): (r: seq<X>)
    ensures |r| == |ids|
  {
    seq(|ids|, i requires 0 <= i < |ids| => courseById(ids[i]))
  }

  class CampusApi {
    var step: int
    var skip: int
    var top: int
    var totalCourses: Option<int>
    var finished: bool
    /** Number of calls so far that returned a batch. */
    ghost var batches: nat

    ghost predicate Valid()
      reads this
    {
      && step < 100
      && top == step
      && skip == batches * step
      && (totalCourses == None <==> batches == 0)
      && (totalCourses.Some? ==> finished == (skip > totalCourses.value))
      && (batches == 0 ==> !finished)
    }

    constructor (requestedStep: int := DefaultStep)
      ensures Valid()
      ensures step == ClampStep(requestedStep)
      ensures skip == 0 && top == step && totalCourses == None && !finished
      ensures batches == 0
    {
      step := ClampStep(requestedStep);
      skip := 0;
      top := ClampStep(requestedStep);
      totalCourses := None;
      finished := false;
      batches := 0;
    }

    /** Ids of the parsable resources, skipping the others. */
    method GetCourseIdsFromBatch(batch: seq<Resource>) returns (ids: seq<int>)
      ensures ids == ParsedIds(batch)
    {
      ids := [];
      var i := 0;
      while i < |batch|
        invariant 0 <= i <= |batch|
        invariant ids == ParsedIds(batch[..i])
      {
        assert batch[..i + 1][..i] == batch[..i];
        if batch[i].Parsed? {
          ids := ids + [batch[i].id];
        }
        i := i + 1;
      }
      assert batch[..i] == batch;
    }

    /** The loop fetching one course per id, in id order. */
    method FetchCourses<X>(ids: seq<int>, courseById: int -> X) returns (rval: seq<X>)
      ensures rval == FetchAll(ids, courseById)
    {
      rval := [];
      var i := 0;
      while i < |ids|
        invariant 0 <= i <= |ids|
        invariant |rval| == i
        invariant forall k :: 0 <= k < i ==> rval[k] == courseById(ids[k])
      {
        rval := rval + [courseById(ids[i])];
        i := i + 1;
      }
    }

    /** The next batch of courses, or `None` once every course has been
        returned. `request` answers a page request for `(skip, top)`. */
    method GetNextBatchOfCourses<X>(request: (int, int) -> Page, courseById: int -> X)
      returns (r: Option<seq<X>>)
      requires Valid()
      modifies this
      ensures Valid()
      ensures step == old(step) && top == old(top)
      ensures old(finished) ==>
        && r == None
        && skip == old(skip) && totalCourses == old(totalCourses) && finished
        && batches == old(batches)
      ensures !old(finished) ==>
        var page := request(old(skip), old(top));
        && r == Some(FetchAll(ParsedIds(page.resources), courseById))
        && skip == old(skip) + step
        && totalCourses == (if old(totalCourses) in {None, Some(0)} then Some(page.total) else old(totalCourses))
        && finished == (skip > totalCourses.value)
        && batches == old(batches) + 1
    {
      if finished {
        return None;
      }
      var page := request(skip, top);
      var ids := GetCourseIdsFromBatch(page.resources);
      var rval := FetchCourses(ids, courseById);
      if totalCourses == None || totalCourses == Some(0) {
        totalCourses := Some(page.total);
      }
      skip := skip + step;
      batches := batches + 1;
      if skip > totalCourses.value {
        finished := true;
      }
      r := Some(rval);
    }
  }

  /** With `(k - 1) * step <= total < k * step`, `k` is `total / step + 1`. */
  lemma BatchCountArith(k: int, step: int, total: nat)
    requires step > 0
    requires (k - 1) * step <= total < k * step
    ensures k == total / step + 1
  {
    var q := total / step;
    assert q * step + total % step == total;
    if k <= q {
      MulMonotone(k, q, step);
      assert false;
    }
    if k >= q + 2 {
      MulMonotone(q + 1, k - 1, step);
      assert false;
    }
  }

  lemma MulMonotone(a: int, b: int, c: int)
    requires a <= b && c > 0
    ensures a * c <= b * c
  {
  }

  /** Calling the API until it returns `None`, as a downloading client
      does: with a positive step and a server that always reports `total`
      courses, exactly `total / step + 1` calls return a batch. */
  method DownloadAllCourses<X>(requestedStep: int, total: nat, request: (int, int) -> Page, courseById: int -> X)
    returns (batchCount: nat)
    requires requestedStep > 0
    requires forall s, t :: request(s, t).total == total
    ensures batchCount == total / ClampStep(requestedStep) + 1
  {
    var api := new CampusApi(requestedStep);
    var st := api.step;
    var batch := api.GetNextBatchOfCourses(request, courseById);
    batchCount := 0;
    while batch.Some?
      invariant api.Valid() && api.step == st && st > 0
      invariant api.batches >= 1 && api.totalCourses == Some(total)
      invariant api.skip - st <= total
      invariant batch.Some? ==> batchCount + 1 == api.batches
      invariant batch.None? ==> batchCount == api.batches && api.finished
      decreases (if api.finished then 0 else total - api.skip + 1), (if batch.Some? then 1 else 0)
    {
      batchCount := batchCount + 1;
      batch := api.GetNextBatchOfCourses(request, courseById);
    }
    BatchCountArith(batchCount, st, total);
  }
}
