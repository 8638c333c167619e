/** The fetch driver of `AcledSource` (`fetch_and_store_from` and
    `fetch_and_store`) against a scripted API.

    The API is the sequence of answers it gives, one per request, in the order
    the requests are issued; this covers every API whose answers are fixed in
    advance. The loop body reads each answer as a `Step` (`Classify`), and the
    driver runs over those steps. A run returns the trace of what the driver
    did (each GET it issued and each batch it handed to the store), how it
    ended, and how many answers it consumed. */
module Fetch {
  import opened Results
  import opened DataTypes
  import opened Sources

  /** A decoded answer body. `count` and `data` are `None` when the JSON
      object has no such key. */
  datatype Body = NotJson | JsonObject(count: Option<int>, data: Option<Batch>)

  /** One answer to one request. */
  datatype Response = NoConnection | Http(status: int, body: Body)

  /** `raise_for_status` raises on client (4xx) and server (5xx) statuses. */
  predicate IsErrorStatus(status: int) {
    400 <= status < 600
  }

  /** What one answer makes the loop do. */
  datatype Step = LastPage | DataPage(data: Batch) | Abort(error: Error)

  /** One pass of the loop body after the request is sent: check the status,
      decode the body, read `count`, stop on zero, otherwise build the features
      from `data` (which raises on a record without coordinates) and save the
      raw `data`. */
  function Classify(resp: Response): Step
  {
    match resp
    case NoConnection => Abort(ConnectionError)
    case Http(status, body) =>
      if IsErrorStatus(status) then Abort(HttpError(status))
      else
        match body
        case NotJson => Abort(JsonDecodeError)
        case JsonObject(count, data) =>
          if count.None? then Abort(KeyError("count"))
          else if count.value == 0 then LastPage
          else if data.None? then Abort(KeyError("data"))
          else
            match ObjectsToFeatures(data.value)
            case Failure(e) => Abort(e)
            case Success(_) => DataPage(data.value)
  }

  /** The answer passes `raise_for_status` and its body is a JSON object. */
  predicate IsJsonAnswer(resp: Response) {
    resp.Http? && !IsErrorStatus(resp.status) && resp.body.JsonObject?
  }

  /** An answer that ends its region's pagination. */
  predicate IsEmptyAnswer(resp: Response) {
    IsJsonAnswer(resp) && resp.body.count == Some(0)
  }

  /** An answer whose page the loop saves. */
  ghost predicate IsDataAnswer(resp: Response) {
    && IsJsonAnswer(resp)
    && resp.body.count.Some? && resp.body.count.value != 0
    && resp.body.data.Some?
    && forall i :: 0 <= i < |resp.body.data.value| ==> HasCoordinates(resp.body.data.value[i])
  }

  /** The `data` of a JSON answer, empty when it has none. */
  function AnswerData(resp: Response): Batch {
    if resp.Http? && resp.body.JsonObject? && resp.body.data.Some? then resp.body.data.value else []
  }

  /** A page ends its region exactly when it passes the status check, is JSON
      and has a zero `count`, whatever its `data` holds; the loop saves a page
      exactly when its count is non-zero and every record of its `data` has
      both coordinates, and it saves the raw `data`, not the features. Every
      other answer aborts the run, with the error the first failing check
      raises. */
  lemma ClassifyCases(resp: Response)
    ensures Classify(resp).LastPage? <==> IsEmptyAnswer(resp)
    ensures Classify(resp).DataPage? <==> IsDataAnswer(resp)
    ensures Classify(resp).DataPage? ==> Classify(resp).data == AnswerData(resp)
    ensures resp.NoConnection? ==> Classify(resp) == Abort(ConnectionError)
    ensures resp.Http? && IsErrorStatus(resp.status) ==> Classify(resp) == Abort(HttpError(resp.status))
    ensures resp.Http? && !IsErrorStatus(resp.status) && resp.body.NotJson? ==>
      Classify(resp) == Abort(JsonDecodeError)
    ensures IsJsonAnswer(resp) && resp.body.count.None? ==> Classify(resp) == Abort(KeyError("count"))
    ensures IsJsonAnswer(resp) && resp.body.count.Some? && resp.body.count.value != 0 && resp.body.data.None? ==>
      Classify(resp) == Abort(KeyError("data"))
    ensures
      (IsJsonAnswer(resp) && resp.body.count.Some? && resp.body.count.value != 0 && resp.body.data.Some?
       && !IsDataAnswer(resp)) ==>
      exists i :: FirstWithoutCoordinates(resp.body.data.value, i)
        && Classify(resp) == Abort(KeyError(MissingCoordinate(resp.body.data.value[i])))
  {
    if resp.Http? && resp.body.JsonObject? && resp.body.data.Some? {
      ObjectsToFeaturesSpec(resp.body.data.value);
    }
  }

  /** What each answer of a script makes the loop do, in order. */
  function Steps(script: seq<Response>): (s: seq<Step>)
    ensures |s| == |script|
    ensures forall i :: 0 <= i < |script| ==> s[i] == Classify(script[i])
  {
    seq(|script|, i requires 0 <= i < |script| => Classify(script[i]))
  }

  lemma StepsDrop(script: seq<Response>, n: nat)
    requires n <= |script|
    ensures Steps(script[n..]) == Steps(script)[n..]
  {
  }

  /** What the driver does to the outside world. */
  datatype Event = Get(url: string, params: AcledRequest) | Save(batch: Batch)

  /** How a run ends. `Exhausted` means the script ran out before the run
      ended: the trace is then the start of the real one. */
  datatype Outcome = Completed | Failed(error: Error) | Exhausted

  /** What a run did, how it ended and how many answers it consumed. */
  datatype Run = Run(trace: seq<Event>, outcome: Outcome, consumed: nat)

  /** The parameters of the GETs in a trace, in order. */
  function Requests(t: seq<Event>): seq<AcledRequest>
  {
    if |t| == 0 then []
    else (if t[0].Get? then [t[0].params] else []) + Requests(t[1..])
  }

  /** The batches handed to the store, in order. */
  function Saves(t: seq<Event>): seq<Batch>
  {
    if |t| == 0 then []
    else (if t[0].Save? then [t[0].batch] else []) + Saves(t[1..])
  }

  /** The data of the steps that make the loop save, in order. */
  function DataPages(ss: seq<Step>): seq<Batch>
  {
    if |ss| == 0 then []
    else (if ss[0].DataPage? then [ss[0].data] else []) + DataPages(ss[1..])
  }

  /** How many steps end a region's pagination. */
  function LastPages(ss: seq<Step>): nat
  {
    if |ss| == 0 then 0
    else (if ss[0].LastPage? then 1 else 0) + LastPages(ss[1..])
  }

  /** GET and save take turns, starting with a GET. */
  ghost predicate Alternates(t: seq<Event>) {
    forall j :: 0 <= j < |t| ==> (t[j].Get? <==> j % 2 == 0)
  }

  /** Every batch is saved right after the GET that fetched it. */
  ghost predicate SavedAfterGet(t: seq<Event>) {
    forall j :: 0 <= j < |t| && t[j].Save? ==> j > 0 && t[j - 1].Get?
  }

  /** Every GET goes to `url`. */
  ghost predicate SentTo(t: seq<Event>, url: string) {
    forall j :: 0 <= j < |t| && t[j].Get? ==> t[j].url == url
  }

  lemma RequestsConcat(a: seq<Event>, b: seq<Event>)
    ensures Requests(a + b) == Requests(a) + Requests(b)
  {
    if |a| > 0 {
      assert (a + b)[1..] == a[1..] + b;
    } else {
      assert a + b == b;
    }
  }

  lemma SavesConcat(a: seq<Event>, b: seq<Event>)
    ensures Saves(a + b) == Saves(a) + Saves(b)
  {
    if |a| > 0 {
      assert (a + b)[1..] == a[1..] + b;
    } else {
      assert a + b == b;
    }
  }

  lemma DataPagesConcat(a: seq<Step>, b: seq<Step>)
    ensures DataPages(a + b) == DataPages(a) + DataPages(b)
    ensures LastPages(a + b) == LastPages(a) + LastPages(b)
  {
    if |a| > 0 {
      assert (a + b)[1..] == a[1..] + b;
    } else {
      assert a + b == b;
    }
  }

  /** `trace` and `n` consumed answers, followed by what `r` did. */
  function Prefixed(trace: seq<Event>, n: nat, r: Run): Run {
    Run(trace + r.trace, r.outcome, n + r.consumed)
  }

  lemma PrefixedTwice(t1: seq<Event>, n1: nat, t2: seq<Event>, n2: nat, r: Run)
    ensures Prefixed(t1, n1, Prefixed(t2, n2, r)) == Prefixed(t1 + t2, n1 + n2, r)
  {
    assert t1 + (t2 + r.trace) == (t1 + t2) + r.trace;
  }

  /** The request for the page after `req`'s. */
  function Next(req: AcledRequest): AcledRequest {
    req.(page := req.page + 1)
  }

  /** The request for the next page is the one `build_request_params` builds
      for it. */
  lemma NextPage(src: AcledSource, iso: int, page: int)
    ensures Next(BuildRequestParams(src, iso, page)) == BuildRequestParams(src, iso, page + 1)
  {
  }

  /** The loop of `fetch_and_store_from` from request `req` on: send it to
      `url`, stop at the first answer whose `count` is zero, abort on any
      failure, otherwise save the page's raw data and go on with the request
      for the next page. A region ends on the step that stopped it. */
  function Paginate(url: string, req: AcledRequest, steps: seq<Step>): (r: Run)
    decreases |steps|
    ensures r.consumed <= |steps|
    ensures r.outcome.Exhausted? ==> r.consumed == |steps|
    ensures r.outcome.Completed? ==> 0 < r.consumed && steps[r.consumed - 1].LastPage?
    ensures r.outcome.Failed? ==> 0 < r.consumed && steps[r.consumed - 1] == Abort(r.outcome.error)
  {
    if |steps| == 0 then Run([], Exhausted, 0)
    else
      var get := Get(url, req);
      match steps[0]
      case Abort(e) => Run([get], Failed(e), 1)
      case LastPage => Run([get], Completed, 1)
      case DataPage(d) => Prefixed([get, Save(d)], 1, Paginate(url, Next(req), steps[1..]))
  }

  /** `fetch_and_store_from(iso)`: region `iso` from page 1 on. */
  function Region(src: AcledSource, iso: int, steps: seq<Step>): Run {
    Paginate(src.url, BuildRequestParams(src, iso, 1), steps)
  }

  lemma OnePage(get: Event, d: Batch)
    requires get.Get?
    ensures Requests([get, Save(d)]) == [get.params]
    ensures Saves([get, Save(d)]) == [d]
  {
    var t := [get, Save(d)];
    assert t[0] == get && t[1..] == [Save(d)];
    assert [Save(d)][0] == Save(d) && [Save(d)][1..] == [];
    assert Requests([Save(d)]) == [] + Requests([]);
    assert Saves([Save(d)]) == [d] + Saves([]);
  }

  lemma OneGet(get: Event)
    requires get.Get?
    ensures Requests([get]) == [get.params]
    ensures Saves([get]) == []
  {
    assert [get][1..] == [];
  }

  lemma OneStep(st: Step)
    ensures DataPages([st]) == if st.DataPage? then [st.data] else []
    ensures LastPages([st]) == if st.LastPage? then 1 else 0
  {
    assert [st][0] == st;
    assert [st][1..] == [];
  }

  /** The steps a page consumed: its own, then those its continuation consumed. */
  lemma ConsumedSplit(steps: seq<Step>, n: nat)
    requires 0 < n <= |steps|
    ensures steps[..n] == [steps[0]] + steps[1..][..n - 1]
  {
  }

  /** The steps a run consumed: those of its first region, then those of the rest. */
  lemma ConsumedConcat(steps: seq<Step>, n1: nat, n2: nat)
    requires n1 + n2 <= |steps|
    ensures steps[..n1 + n2] == steps[..n1] + steps[n1..][..n2]
  {
  }

  /** All GETs of a region go to the source's URL. */
  lemma {:induction false} PaginateSentTo(url: string, req: AcledRequest, steps: seq<Step>)
    ensures SentTo(Paginate(url, req, steps).trace, url)
    decreases |steps|
  {
    if |steps| > 0 {
      var get := Get(url, req);
      if steps[0].DataPage? {
        var d := steps[0].data;
        var next := Paginate(url, Next(req), steps[1..]);
        PaginateSentTo(url, Next(req), steps[1..]);
        assert SentTo([get, Save(d)], url);
        SentToConcat([get, Save(d)], next.trace, url);
      }
    }
  }

  /** The requests for pages `1` to `n` of one region, in order. */
  function PageRequests(src: AcledSource, iso: int, n: nat): (r: seq<AcledRequest>)
    ensures |r| == n
  {
    seq(n, j requires 0 <= j < n => BuildRequestParams(src, iso, j + 1))
  }

  /** One GET per consumed answer, for consecutive pages of the one region,
      each with the source's credentials and date range. */
  lemma {:induction false} PaginateRequests(url: string, req: AcledRequest, steps: seq<Step>)
    ensures var r := Paginate(url, req, steps);
      && |Requests(r.trace)| == r.consumed
      && forall i :: 0 <= i < |Requests(r.trace)| ==>
           Requests(r.trace)[i] == req.(page := req.page + i)
    decreases |steps|
  {
    var r := Paginate(url, req, steps);
    if |steps| > 0 {
      var get := Get(url, req);
      if steps[0].DataPage? {
        var d := steps[0].data;
        var next := Paginate(url, Next(req), steps[1..]);
        assert r == Prefixed([get, Save(d)], 1, next);
        PaginateRequests(url, Next(req), steps[1..]);
        RequestsConcat([get, Save(d)], next.trace);
        OnePage(get, d);
        var reqs := Requests(r.trace);
        assert reqs == [get.params] + Requests(next.trace);
        forall i | 0 < i < |reqs|
          ensures reqs[i] == req.(page := req.page + i)
        {
          assert reqs[i] == Requests(next.trace)[i - 1];
        }
      } else {
        assert r.trace == [get];
        OneGet(get);
      }
    }
  }

  /** A region requests exactly pages `1` to `n`, where `n` is the number of
      answers it consumed, each as `build_request_params` builds it. */
  lemma RegionRequests(src: AcledSource, iso: int, steps: seq<Step>)
    ensures var r := Region(src, iso, steps);
      Requests(r.trace) == PageRequests(src, iso, r.consumed)
  {
    var req := BuildRequestParams(src, iso, 1);
    var reqs := Requests(Region(src, iso, steps).trace);
    PaginateRequests(src.url, req, steps);
    forall i | 0 <= i < |reqs|
      ensures reqs[i] == BuildRequestParams(src, iso, i + 1)
    {
      assert reqs[i] == req.(page := 1 + i);
    }
  }

  /** Every step a region consumed before its last one carried data; when
      the steps ran out, all of them did. */
  lemma {:induction false} PaginateContinues(url: string, req: AcledRequest, steps: seq<Step>)
    ensures var r := Paginate(url, req, steps);
      && (forall i :: 0 <= i < r.consumed - 1 ==> steps[i].DataPage?)
      && (r.outcome.Exhausted? ==> forall i :: 0 <= i < |steps| ==> steps[i].DataPage?)
    decreases |steps|
  {
    var r := Paginate(url, req, steps);
    if |steps| > 0 && steps[0].DataPage? {
      var next := Paginate(url, Next(req), steps[1..]);
      PaginateContinues(url, Next(req), steps[1..]);
      assert r.consumed == next.consumed + 1 && r.outcome == next.outcome;
      forall i | 0 < i < |steps|
        ensures steps[i] == steps[1..][i - 1]
      {
      }
    }
  }

  /** Within one region each page's batch is saved before the next page is
      requested: GET and save take turns. */
  lemma {:induction false} PaginateAlternates(url: string, req: AcledRequest, steps: seq<Step>)
    ensures Alternates(Paginate(url, req, steps).trace)
    decreases |steps|
  {
    if |steps| > 0 && steps[0].DataPage? {
      var d := steps[0].data;
      var get := Get(url, req);
      var next := Paginate(url, Next(req), steps[1..]).trace;
      PaginateAlternates(url, Next(req), steps[1..]);
      AlternatesPrepend(get, Save(d), next);
    }
  }

  lemma AlternatesPrepend(get: Event, save: Event, t: seq<Event>)
    requires get.Get? && save.Save? && Alternates(t)
    ensures Alternates([get, save] + t)
  {
    var u := [get, save] + t;
    forall j | 2 <= j < |u|
      ensures u[j].Get? <==> j % 2 == 0
    {
      assert u[j] == t[j - 2];
    }
  }

  /** Within one region the store receives exactly the data of the consumed
      steps that carried data, in order. */
  lemma {:induction false} PaginateDataPages(url: string, req: AcledRequest, steps: seq<Step>)
    ensures var r := Paginate(url, req, steps);
      Saves(r.trace) == DataPages(steps[..r.consumed])
    decreases |steps|
  {
    var r := Paginate(url, req, steps);
    if |steps| == 0 {
      assert steps[..0] == [];
    } else {
      var get := Get(url, req);
      OneStep(steps[0]);
      if steps[0].DataPage? {
        var d := steps[0].data;
        var next := Paginate(url, Next(req), steps[1..]);
        assert r == Prefixed([get, Save(d)], 1, next);
        PaginateDataPages(url, Next(req), steps[1..]);
        ConsumedSplit(steps, r.consumed);
        SavesConcat([get, Save(d)], next.trace);
        OnePage(get, d);
        DataPagesConcat([steps[0]], steps[1..][..next.consumed]);
      } else {
        assert r.trace == [get];
        OneGet(get);
        assert steps[..r.consumed] == [steps[0]];
      }
    }
  }

  /** A region's steps hold one zero count exactly when it completes. */
  lemma {:induction false} PaginateLastPages(url: string, req: AcledRequest, steps: seq<Step>)
    ensures var r := Paginate(url, req, steps);
      LastPages(steps[..r.consumed]) == if r.outcome.Completed? then 1 else 0
    decreases |steps|
  {
    var r := Paginate(url, req, steps);
    if |steps| == 0 {
      assert steps[..0] == [];
    } else {
      OneStep(steps[0]);
      if steps[0].DataPage? {
        var next := Paginate(url, Next(req), steps[1..]);
        assert r.consumed == next.consumed + 1 && r.outcome == next.outcome;
        PaginateLastPages(url, Next(req), steps[1..]);
        ConsumedSplit(steps, r.consumed);
        DataPagesConcat([steps[0]], steps[1..][..next.consumed]);
      } else {
        assert steps[..r.consumed] == [steps[0]];
      }
    }
  }

  /** `fetch_and_store`: paginate each region in order, starting each at page
      1 and going on with the answers the previous one left; the first region
      that does not complete ends the run. */
  function FetchAll(src: AcledSource, regions: seq<IsoCode>, steps: seq<Step>): (r: Run)
    decreases |regions|
    ensures r.consumed <= |steps|
    ensures r.outcome.Exhausted? ==> r.consumed == |steps|
    ensures r.outcome.Failed? ==> 0 < r.consumed && steps[r.consumed - 1] == Abort(r.outcome.error)
  {
    if |regions| == 0 then Run([], Completed, 0)
    else
      var first := Region(src, regions[0].code, steps);
      if !first.outcome.Completed? then first
      else Prefixed(first.trace, first.consumed, FetchAll(src, regions[1..], steps[first.consumed..]))
  }

  lemma SentToConcat(a: seq<Event>, b: seq<Event>, url: string)
    requires SentTo(a, url) && SentTo(b, url)
    ensures SentTo(a + b, url)
  {
    var t := a + b;
    forall j | |a| <= j < |t| && t[j].Get?
      ensures t[j].url == url
    {
      assert t[j] == b[j - |a|];
    }
  }

  lemma SavedAfterGetConcat(a: seq<Event>, b: seq<Event>)
    requires SavedAfterGet(a) && SavedAfterGet(b)
    ensures SavedAfterGet(a + b)
  {
    var t := a + b;
    forall j | |a| <= j < |t| && t[j].Save?
      ensures j > 0 && t[j - 1].Get?
    {
      assert t[j] == b[j - |a|];
      assert j - |a| > 0;
      assert t[j - 1] == b[j - |a| - 1];
    }
  }

  lemma AlternatesSavedAfterGet(t: seq<Event>)
    requires Alternates(t)
    ensures SavedAfterGet(t)
  {
    forall j | 0 <= j < |t| && t[j].Save?
      ensures j > 0 && t[j - 1].Get?
    {
      assert j % 2 == 1;
      assert (j - 1) % 2 == 0;
    }
  }

  /** Every GET of the run goes to the source's URL. */
  lemma {:induction false} FetchAllSentTo(src: AcledSource, regions: seq<IsoCode>, steps: seq<Step>)
    ensures SentTo(FetchAll(src, regions, steps).trace, src.url)
    decreases |regions|
  {
    if |regions| > 0 {
      var first := Region(src, regions[0].code, steps);
      PaginateSentTo(src.url, BuildRequestParams(src, regions[0].code, 1), steps);
      if first.outcome.Completed? {
        var others := FetchAll(src, regions[1..], steps[first.consumed..]);
        FetchAllSentTo(src, regions[1..], steps[first.consumed..]);
        SentToConcat(first.trace, others.trace, src.url);
      }
    }
  }

  /** Every save of the run comes right after the GET that fetched its page,
      so each page is stored before the next one is requested. */
  lemma {:induction false} FetchAllSavedAfterGet(src: AcledSource, regions: seq<IsoCode>, steps: seq<Step>)
    ensures SavedAfterGet(FetchAll(src, regions, steps).trace)
    decreases |regions|
  {
    if |regions| > 0 {
      var first := Region(src, regions[0].code, steps);
      PaginateAlternates(src.url, BuildRequestParams(src, regions[0].code, 1), steps);
      AlternatesSavedAfterGet(first.trace);
      if first.outcome.Completed? {
        var others := FetchAll(src, regions[1..], steps[first.consumed..]);
        FetchAllSavedAfterGet(src, regions[1..], steps[first.consumed..]);
        SavedAfterGetConcat(first.trace, others.trace);
      }
    }
  }

  /** Joins the saves of a completed first region with those of the rest. */
  lemma SavesJoin(steps: seq<Step>, trace: seq<Event>, n1: nat, others: Run)
    requires n1 + others.consumed <= |steps|
    requires Saves(trace) == DataPages(steps[..n1])
    requires Saves(others.trace) == DataPages(steps[n1..][..others.consumed])
    ensures var r := Prefixed(trace, n1, others);
      Saves(r.trace) == DataPages(steps[..r.consumed])
  {
    SavesConcat(trace, others.trace);
    ConsumedConcat(steps, n1, others.consumed);
    DataPagesConcat(steps[..n1], steps[n1..][..others.consumed]);
  }

  /** Adds the zero count that ended a completed first region to those of the rest. */
  lemma LastPagesJoin(steps: seq<Step>, trace: seq<Event>, n1: nat, others: Run, m: nat)
    requires n1 + others.consumed <= |steps|
    requires LastPages(steps[..n1]) == 1
    requires others.outcome.Completed? ==> LastPages(steps[n1..][..others.consumed]) == m
    ensures var r := Prefixed(trace, n1, others);
      r.outcome.Completed? ==> LastPages(steps[..r.consumed]) == m + 1
  {
    ConsumedConcat(steps, n1, others.consumed);
    DataPagesConcat(steps[..n1], steps[n1..][..others.consumed]);
  }

  /** The store receives exactly the data of the consumed steps that carried
      data, in order, across all regions. */
  lemma {:induction false} FetchAllSaves(src: AcledSource, regions: seq<IsoCode>, steps: seq<Step>)
    ensures var r := FetchAll(src, regions, steps);
      Saves(r.trace) == DataPages(steps[..r.consumed])
    decreases |regions|
  {
    if |regions| == 0 {
      assert steps[..0] == [];
    } else {
      var first := Region(src, regions[0].code, steps);
      PaginateDataPages(src.url, BuildRequestParams(src, regions[0].code, 1), steps);
      if first.outcome.Completed? {
        var n1 := first.consumed;
        var others := FetchAll(src, regions[1..], steps[n1..]);
        assert FetchAll(src, regions, steps) == Prefixed(first.trace, n1, others);
        FetchAllSaves(src, regions[1..], steps[n1..]);
        SavesJoin(steps, first.trace, n1, others);
      }
    }
  }

  /** A completed run consumed one zero count per configured region. */
  lemma {:induction false} FetchAllRegionsEnded(src: AcledSource, regions: seq<IsoCode>, steps: seq<Step>)
    ensures var r := FetchAll(src, regions, steps);
      r.outcome.Completed? ==> LastPages(steps[..r.consumed]) == |regions|
    decreases |regions|
  {
    if |regions| == 0 {
      assert steps[..0] == [];
    } else {
      var first := Region(src, regions[0].code, steps);
      PaginateLastPages(src.url, BuildRequestParams(src, regions[0].code, 1), steps);
      if first.outcome.Completed? {
        var n1 := first.consumed;
        var others := FetchAll(src, regions[1..], steps[n1..]);
        assert FetchAll(src, regions, steps) == Prefixed(first.trace, n1, others);
        FetchAllRegionsEnded(src, regions[1..], steps[n1..]);
        LastPagesJoin(steps, first.trace, n1, others, |regions| - 1);
      }
    }
  }

  /** The only failing step among the first `r.consumed` is the last of
      them, and `r` failed with its error. */
  ghost predicate FailsFast(steps: seq<Step>, r: Run)
    requires r.consumed <= |steps|
  {
    forall i :: 0 <= i < r.consumed && steps[i].Abort? ==>
      r.outcome == Failed(steps[i].error) && i == r.consumed - 1
  }

  /** A first region that consumed `n1` steps without failing, followed by a
      run that fails fast, fails fast. */
  lemma FailsFastJoin(steps: seq<Step>, n1: nat, trace: seq<Event>, others: Run)
    requires n1 + others.consumed <= |steps|
    requires forall i :: 0 <= i < n1 ==> !steps[i].Abort?
    requires FailsFast(steps[n1..], others)
    ensures FailsFast(steps, Prefixed(trace, n1, others))
  {
    var r := Prefixed(trace, n1, others);
    forall i | n1 <= i < r.consumed && steps[i].Abort?
      ensures r.outcome == Failed(steps[i].error) && i == r.consumed - 1
    {
      assert steps[i] == steps[n1..][i - n1];
    }
  }

  /** A region fails fast on its own. */
  lemma RegionFailsFast(url: string, req: AcledRequest, steps: seq<Step>)
    ensures FailsFast(steps, Paginate(url, req, steps))
    ensures var r := Paginate(url, req, steps);
      r.outcome.Completed? ==> forall i :: 0 <= i < r.consumed ==> !steps[i].Abort?
  {
    PaginateContinues(url, req, steps);
  }

  /** Fail-fast: the only failing step a run can consume is its very last,
      and then the run has failed with that step's error. */
  lemma {:induction false} FetchAllFailFast(src: AcledSource, regions: seq<IsoCode>, steps: seq<Step>)
    ensures FailsFast(steps, FetchAll(src, regions, steps))
    decreases |regions|
  {
    if |regions| > 0 {
      var first := Region(src, regions[0].code, steps);
      RegionFailsFast(src.url, BuildRequestParams(src, regions[0].code, 1), steps);
      if first.outcome.Completed? {
        var n1 := first.consumed;
        var others := FetchAll(src, regions[1..], steps[n1..]);
        assert FetchAll(src, regions, steps) == Prefixed(first.trace, n1, others);
        FetchAllFailFast(src, regions[1..], steps[n1..]);
        FailsFastJoin(steps, n1, first.trace, others);
      }
    }
  }

  /** A region that ended did so on the GET whose answer stopped it, the one
      for its last page: nothing is saved after a zero count or a failure. */
  lemma {:induction false} PaginateEndsOnGet(url: string, req: AcledRequest, steps: seq<Step>)
    ensures var r := Paginate(url, req, steps);
      !r.outcome.Exhausted? ==>
        0 < |r.trace| && r.trace[|r.trace| - 1] == Get(url, req.(page := req.page + r.consumed - 1))
    decreases |steps|
  {
    if |steps| > 0 && steps[0].DataPage? {
      var d := steps[0].data;
      var next := Paginate(url, Next(req), steps[1..]);
      assert Paginate(url, req, steps) == Prefixed([Get(url, req), Save(d)], 1, next);
      PaginateEndsOnGet(url, Next(req), steps[1..]);
    }
  }

  /** One GET per consumed answer over the whole run, so the `i`-th request
      sent is the one the `i`-th answer answers. */
  lemma {:induction false} FetchAllRequests(src: AcledSource, regions: seq<IsoCode>, steps: seq<Step>)
    ensures var r := FetchAll(src, regions, steps);
      |Requests(r.trace)| == r.consumed
    decreases |regions|
  {
    if |regions| > 0 {
      var first := Region(src, regions[0].code, steps);
      PaginateRequests(src.url, BuildRequestParams(src, regions[0].code, 1), steps);
      if first.outcome.Completed? {
        var n1 := first.consumed;
        var others := FetchAll(src, regions[1..], steps[n1..]);
        assert FetchAll(src, regions, steps) == Prefixed(first.trace, n1, others);
        FetchAllRequests(src, regions[1..], steps[n1..]);
        RequestsConcat(first.trace, others.trace);
      }
    }
  }

  /** A failed run's last event is a GET: the page whose answer failed is
      not saved, and nothing follows it. */
  lemma {:induction false} FetchAllEndsOnGet(src: AcledSource, regions: seq<IsoCode>, steps: seq<Step>)
    ensures var r := FetchAll(src, regions, steps);
      r.outcome.Failed? ==> 0 < |r.trace| && r.trace[|r.trace| - 1].Get?
    decreases |regions|
  {
    if |regions| > 0 {
      var first := Region(src, regions[0].code, steps);
      PaginateEndsOnGet(src.url, BuildRequestParams(src, regions[0].code, 1), steps);
      if first.outcome.Completed? {
        var n1 := first.consumed;
        var others := FetchAll(src, regions[1..], steps[n1..]);
        assert FetchAll(src, regions, steps) == Prefixed(first.trace, n1, others);
        FetchAllEndsOnGet(src, regions[1..], steps[n1..]);
      }
    }
  }

  /** Fail-fast, seen from the requests: when answer `i` fails, the GET it
      answered is the run's last request and its last event. No later page
      of that region and no later region is requested, and nothing more is
      saved. */
  lemma FailingAnswerEndsRun(src: AcledSource, regions: seq<IsoCode>, steps: seq<Step>, i: nat)
    requires i < FetchAll(src, regions, steps).consumed
    requires steps[i].Abort?
    ensures var r := FetchAll(src, regions, steps);
      && r.outcome == Failed(steps[i].error)
      && |Requests(r.trace)| == i + 1
      && 0 < |r.trace| && r.trace[|r.trace| - 1].Get?
  {
    FetchAllFailFast(src, regions, steps);
    FetchAllRequests(src, regions, steps);
    FetchAllEndsOnGet(src, regions, steps);
  }

  /** The requests of regions `regions[0]`, `regions[1]`, ... in turn, the
      `k`-th for pages `1` to `counts[k]`. */
  function Blocks(src: AcledSource, regions: seq<IsoCode>, counts: seq<nat>): seq<AcledRequest>
    requires |counts| <= |regions|
    decreases |counts|
  {
    if |counts| == 0 then []
    else PageRequests(src, regions[0].code, counts[0]) + Blocks(src, regions[1..], counts[1..])
  }

  function Sum(counts: seq<nat>): nat
  {
    if |counts| == 0 then 0 else counts[0] + Sum(counts[1..])
  }

  /** How many answers blocks `0` to `k` take together: block `k` closes on
      answer `BlockEnd(counts, k) - 1`. */
  function BlockEnd(counts: seq<nat>, k: nat): nat
    requires k < |counts|
  {
    Sum(counts[..k + 1])
  }

  lemma SumOne(n: nat)
    ensures Sum([n]) == n
  {
    assert [n][1..] == [];
  }

  lemma BlockEndCons(n: nat, counts: seq<nat>, k: nat)
    requires k < |counts|
    ensures BlockEnd([n] + counts, k + 1) == n + BlockEnd(counts, k)
  {
    assert ([n] + counts)[..k + 2] == [n] + counts[..k + 1];
    assert ([n] + counts[..k + 1])[1..] == counts[..k + 1];
  }

  /** `counts` splits the requests of run `r` over `steps` into blocks, one
      per region reached, in configuration order, each for pages 1 on. The
      blocks take exactly the answers the run consumed, one request per
      answer. Every block but the last closes on a zero count, before the
      next region's first request. The last block closes on a zero count
      when the run completed (having reached every region) and on the
      failing answer when it failed. */
  ghost predicate RegionBlocks(src: AcledSource, regions: seq<IsoCode>, steps: seq<Step>, r: Run, counts: seq<nat>) {
    && |counts| <= |regions|
    && (forall k :: 0 <= k < |counts| ==> counts[k] > 0)
    && Requests(r.trace) == Blocks(src, regions, counts)
    && Sum(counts) == r.consumed
    && (forall k :: 0 <= k < |counts| - 1 ==>
          0 < BlockEnd(counts, k) <= |steps| && steps[BlockEnd(counts, k) - 1].LastPage?)
    && (r.outcome.Completed? ==>
          && |counts| == |regions|
          && (|counts| > 0 ==> 0 < r.consumed <= |steps| && steps[r.consumed - 1].LastPage?))
    && (r.outcome.Failed? ==>
          |counts| > 0 && 0 < r.consumed <= |steps| && steps[r.consumed - 1] == Abort(r.outcome.error))
  }

  /** The block ends of `[n1] + counts` over `steps`: a first block closed by
      a zero count at answer `n1 - 1`, then those of `counts` over the rest. */
  lemma BlockEndsJoin(steps: seq<Step>, n1: nat, counts: seq<nat>)
    requires 0 < n1 <= |steps| && steps[n1 - 1].LastPage?
    requires forall k :: 0 <= k < |counts| - 1 ==>
      0 < BlockEnd(counts, k) <= |steps[n1..]| && steps[n1..][BlockEnd(counts, k) - 1].LastPage?
    ensures var all := [n1] + counts;
      forall k :: 0 <= k < |all| - 1 ==>
        0 < BlockEnd(all, k) <= |steps| && steps[BlockEnd(all, k) - 1].LastPage?
  {
    var all := [n1] + counts;
    assert BlockEnd(all, 0) == n1 by {
      assert all[..1] == [n1];
      SumOne(n1);
    }
    forall k | 1 <= k < |all| - 1
      ensures 0 < BlockEnd(all, k) <= |steps| && steps[BlockEnd(all, k) - 1].LastPage?
    {
      BlockEndCons(n1, counts, k - 1);
      assert steps[n1..][BlockEnd(counts, k - 1) - 1] == steps[BlockEnd(all, k) - 1];
    }
  }

  /** Regions are fetched one after the other in configuration order, each
      from page 1 on and each asked at least once, and each region's block
      of requests ends on the answer that stopped it. */
  lemma {:induction false} RegionsInOrder(src: AcledSource, regions: seq<IsoCode>, steps: seq<Step>)
    ensures exists counts :: RegionBlocks(src, regions, steps, FetchAll(src, regions, steps), counts)
    decreases |regions|
  {
    var r := FetchAll(src, regions, steps);
    if |regions| == 0 {
      assert Requests([]) == Blocks(src, regions, []);
      assert RegionBlocks(src, regions, steps, r, []);
    } else {
      var first := Region(src, regions[0].code, steps);
      var n1 := first.consumed;
      RegionRequests(src, regions[0].code, steps);
      if !first.outcome.Completed? {
        if n1 == 0 {
          assert Requests(r.trace) == Blocks(src, regions, []);
          assert RegionBlocks(src, regions, steps, r, []);
        } else {
          assert Blocks(src, regions, [n1]) == PageRequests(src, regions[0].code, n1) + Blocks(src, regions[1..], []);
          assert Sum([n1]) == n1 by {
            assert [n1][1..] == [];
          }
          assert RegionBlocks(src, regions, steps, r, [n1]);
        }
      } else {
        var others := FetchAll(src, regions[1..], steps[n1..]);
        assert r == Prefixed(first.trace, n1, others);
        RegionsInOrder(src, regions[1..], steps[n1..]);
        var counts :| RegionBlocks(src, regions[1..], steps[n1..], others, counts);
        RegionBlocksJoin(src, regions, steps, first.trace, n1, others, counts);
      }
    }
  }

  /** A first region that closed on a zero count after `n1` answers, followed
      by the blocks of the remaining regions over the remaining answers. */
  lemma RegionBlocksJoin(src: AcledSource, regions: seq<IsoCode>, steps: seq<Step>,
                         trace: seq<Event>, n1: nat, others: Run, counts: seq<nat>)
    requires |regions| > 0
    requires 0 < n1 <= |steps| && steps[n1 - 1].LastPage?
    requires Requests(trace) == PageRequests(src, regions[0].code, n1)
    requires RegionBlocks(src, regions[1..], steps[n1..], others, counts)
    ensures RegionBlocks(src, regions, steps, Prefixed(trace, n1, others), [n1] + counts)
  {
    var r := Prefixed(trace, n1, others);
    RequestsConcat(trace, others.trace);
    var all := [n1] + counts;
    assert all[1..] == counts;
    assert Blocks(src, regions, all) == PageRequests(src, regions[0].code, n1) + Blocks(src, regions[1..], counts);
    BlockEndsJoin(steps, n1, counts);
    if |counts| > 0 && !others.outcome.Exhausted? {
      assert steps[n1..][others.consumed - 1] == steps[r.consumed - 1];
    }
  }

  /** A region stops on the first step that is not a data page, having
      consumed exactly up to it. */
  lemma {:induction false} PaginateStopsAt(url: string, req: AcledRequest, steps: seq<Step>, k: nat)
    requires k < |steps|
    requires forall i :: 0 <= i < k ==> steps[i].DataPage?
    requires !steps[k].DataPage?
    ensures var r := Paginate(url, req, steps);
      && r.consumed == k + 1
      && r.outcome == if steps[k].LastPage? then Completed else Failed(steps[k].error)
    decreases k
  {
    if k > 0 {
      var get := Get(url, req);
      var next := Paginate(url, Next(req), steps[1..]);
      assert Paginate(url, req, steps) == Prefixed([get, Save(steps[0].data)], 1, next);
      PaginateStopsAt(url, Next(req), steps[1..], k - 1);
    }
  }

  /** Data pages contribute their data, in order. */
  lemma {:induction false} DataPagesOfData(steps: seq<Step>, k: nat)
    requires k <= |steps|
    requires forall i :: 0 <= i < k ==> steps[i].DataPage?
    ensures DataPages(steps[..k]) == seq(k, i requires 0 <= i < k => steps[i].data)
  {
    if k == 0 {
      assert steps[..0] == [];
    } else {
      DataPagesOfData(steps, k - 1);
      assert steps[..k] == steps[..k - 1] + [steps[k - 1]];
      DataPagesConcat(steps[..k - 1], [steps[k - 1]]);
      OneStep(steps[k - 1]);
    }
  }

  /** A region whose first `k` answers are saved pages and whose next answer
      is not: it requests pages 1 to `k + 1`, saves the `k` pages' data in
      order, and ends on answer `k`. */
  lemma ScriptStopsAt(src: AcledSource, iso: int, script: seq<Response>, k: nat)
    requires k < |script|
    requires forall i :: 0 <= i < k ==> IsDataAnswer(script[i])
    requires !IsDataAnswer(script[k])
    ensures var r := Region(src, iso, Steps(script));
      && r.consumed == k + 1
      && (Classify(script[k]).LastPage? ==> r.outcome == Completed)
      && (Classify(script[k]).Abort? ==> r.outcome == Failed(Classify(script[k]).error))
      && Requests(r.trace) == PageRequests(src, iso, k + 1)
      && Saves(r.trace) == seq(k, i requires 0 <= i < k => AnswerData(script[i]))
  {
    var steps := Steps(script);
    forall i | 0 <= i <= k
      ensures steps[i].DataPage? <==> i < k
      ensures steps[i].DataPage? ==> steps[i].data == AnswerData(script[i])
    {
      ClassifyCases(script[i]);
    }
    PaginateStopsAt(src.url, BuildRequestParams(src, iso, 1), steps, k);
    RegionRequests(src, iso, steps);
    StoppedSaves(src, iso, steps, k);
  }

  /** A region stopped on step `k` saved the data of steps `0` to `k - 1`. */
  lemma StoppedSaves(src: AcledSource, iso: int, steps: seq<Step>, k: nat)
    requires k < |steps| && Region(src, iso, steps).consumed == k + 1
    requires forall i :: 0 <= i < k ==> steps[i].DataPage?
    requires !steps[k].DataPage?
    ensures Saves(Region(src, iso, steps).trace) == seq(k, i requires 0 <= i < k => steps[i].data)
  {
    PaginateDataPages(src.url, BuildRequestParams(src, iso, 1), steps);
    assert steps[..k + 1] == steps[..k] + [steps[k]];
    DataPagesConcat(steps[..k], [steps[k]]);
    OneStep(steps[k]);
    DataPagesOfData(steps, k);
  }

  /** `fetch_and_store_from` stops at the first page whose `count` is zero:
      after `k` full pages and an empty one, it has requested pages 1 to
      `k + 1`, saved the `k` pages' data in order and completed the region. */
  lemma StopsAtFirstEmptyPage(src: AcledSource, iso: int, script: seq<Response>, k: nat)
    requires k < |script|
    requires forall i :: 0 <= i < k ==> IsDataAnswer(script[i])
    requires IsEmptyAnswer(script[k])
    ensures var r := Region(src, iso, Steps(script));
      && r.outcome == Completed
      && r.consumed == k + 1
      && Requests(r.trace) == PageRequests(src, iso, k + 1)
      && Saves(r.trace) == seq(k, i requires 0 <= i < k => AnswerData(script[i]))
  {
    ClassifyCases(script[k]);
    ScriptStopsAt(src, iso, script, k);
  }

  /** An error status ends the run at once: nothing after the failing page is
      requested, and only the pages before it were saved. */
  lemma ErrorStatusStops(src: AcledSource, iso: int, script: seq<Response>, k: nat)
    requires k < |script|
    requires forall i :: 0 <= i < k ==> IsDataAnswer(script[i])
    requires script[k].Http? && IsErrorStatus(script[k].status)
    ensures var r := Region(src, iso, Steps(script));
      && r.outcome == Failed(HttpError(script[k].status))
      && r.consumed == k + 1
      && Requests(r.trace) == PageRequests(src, iso, k + 1)
      && Saves(r.trace) == seq(k, i requires 0 <= i < k => AnswerData(script[i]))
  {
    ClassifyCases(script[k]);
    ScriptStopsAt(src, iso, script, k);
  }

  /** One turn of `fetch_and_store`'s loop: the first region, then the rest
      on the answers it left unless it did not complete. */
  lemma FetchAllFirst(src: AcledSource, regions: seq<IsoCode>, steps: seq<Step>)
    requires |regions| > 0
    ensures var first := Region(src, regions[0].code, steps);
      FetchAll(src, regions, steps)
        == if !first.outcome.Completed? then first
           else Prefixed(first.trace, first.consumed, FetchAll(src, regions[1..], steps[first.consumed..]))
  {
  }

  /** `fetch_and_store_from` as the loop the source writes: build the
      request for page `page`, act on the answer, and go on with the next
      page. */
  method FetchAndStoreFrom(src: AcledSource, iso: int, script: seq<Response>) returns (run: Run)
    ensures run == Region(src, iso, Steps(script))
  {
    var trace: seq<Event> := [];
    var page := 1;
    var i := 0;
    while true
      invariant i <= |script|
      invariant Region(src, iso, Steps(script))
             == Prefixed(trace, i, Paginate(src.url, BuildRequestParams(src, iso, page), Steps(script)[i..]))
      decreases |script| - i
    {
      var rest := Steps(script)[i..];
      if i == |script| {
        return Run(trace, Exhausted, i);
      }
      var params := BuildRequestParams(src, iso, page);
      var get := Get(src.url, params);
      assert rest[0] == Classify(script[i]) && rest[1..] == Steps(script)[i + 1..];
      match Classify(script[i])
      case Abort(e) =>
        return Run(trace + [get], Failed(e), i + 1);
      case LastPage =>
        return Run(trace + [get], Completed, i + 1);
      case DataPage(d) =>
        NextPage(src, iso, page);
        PrefixedTwice(trace, i, [get, Save(d)], 1, Paginate(src.url, Next(params), rest[1..]));
        trace := trace + [get, Save(d)];
        page := page + 1;
        i := i + 1;
    }
  }

  /** One turn of `fetch_and_store`'s loop: `whole` is `trace` and `used`
      answers followed by the run over the remaining regions `rs`. */
  lemma FetchAllTurn(src: AcledSource, rs: seq<IsoCode>, ss: seq<Step>, whole: Run, trace: seq<Event>, used: nat)
    requires |rs| > 0
    requires whole == Prefixed(trace, used, FetchAll(src, rs, ss))
    ensures var part := Region(src, rs[0].code, ss);
      && (!part.outcome.Completed? ==> whole == Prefixed(trace, used, part))
      && (part.outcome.Completed? ==>
            whole == Prefixed(trace + part.trace, used + part.consumed, FetchAll(src, rs[1..], ss[part.consumed..])))
  {
    var part := Region(src, rs[0].code, ss);
    FetchAllFirst(src, rs, ss);
    if part.outcome.Completed? {
      PrefixedTwice(trace, used, part.trace, part.consumed, FetchAll(src, rs[1..], ss[part.consumed..]));
    }
  }

  /** `fetch_and_store` as the loop the source writes: each configured region
      in turn, each going on with the answers the previous one left. */
  method FetchAndStore(src: AcledSource, script: seq<Response>) returns (run: Run)
    ensures run == FetchAll(src, src.countries, Steps(script))
  {
    var trace: seq<Event> := [];
    var used: nat := 0;
    var regions := src.countries;
    assert script[0..] == script;
    while |regions| > 0
      invariant used <= |script|
      invariant FetchAll(src, src.countries, Steps(script))
             == Prefixed(trace, used, FetchAll(src, regions, Steps(script[used..])))
      decreases |regions|
    {
      var part := FetchAndStoreFrom(src, regions[0].code, script[used..]);
      FetchAllTurn(src, regions, Steps(script[used..]), FetchAll(src, src.countries, Steps(script)), trace, used);
      if !part.outcome.Completed? {
        return Prefixed(trace, used, part);
      }
      StepsDrop(script[used..], part.consumed);
      assert script[used..][part.consumed..] == script[used + part.consumed..];
      trace := trace + part.trace;
      used := used + part.consumed;
      regions := regions[1..];
    }
    assert trace + [] == trace;
    return Run(trace, Completed, used);
  }
}
