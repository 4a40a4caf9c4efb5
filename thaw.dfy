/**
 * The thaw worker: when a user upgrades, it asks the cold tier to retrieve
 * every archived result of that user, expedited first and standard when
 * expedited capacity is short. Each retrieval names the job in its
 * description; its completion later triggers the restorer.
 *
 * The table query's answer is given per message (it may fail); the cold
 * tier's answer to a retrieval request is the parameter `glacier`, giving
 * the error code of a refused request and `None` for an accepted one.
 */
module Thaw {
  import opened Wrappers
  import opened Jobs
  import opened JsonDoc
  import opened Cloud

  /** The query by user id: failed, or succeeded with `Items` present or absent. */
  datatype QueryAnswer = QueryFailed | Answer(items: Option<seq<JobRecord>>)

  const InsufficientCapacity: string := "InsufficientCapacityException"

  /** The items that hold an archive id, in their order. */
  function Archived(items: seq<JobRecord>): (r: seq<JobRecord>)
    ensures |r| <= |items|
    ensures forall x :: x in r ==> x in items && x.resultArchiveId.Some?
    ensures forall i :: 0 <= i < |r| ==> r[i].resultArchiveId.Some?
    ensures forall i :: 0 <= i < |items| && items[i].resultArchiveId.Some? ==> items[i] in r
    decreases |items|
  {
    if items == [] then []
    else
      var rest := Archived(items[1..]);
      assert forall i :: 1 <= i < |items| ==> items[i] == items[1..][i - 1];
      if items[0].resultArchiveId.Some? then [items[0]] + rest else rest
  }

  lemma {:induction false} ArchivedSnoc(items: seq<JobRecord>, x: JobRecord)
    ensures Archived(items + [x]) == Archived(items) + (if x.resultArchiveId.Some? then [x] else [])
    decreases |items|
  {
    if items == [] {
      assert [x][1..] == [];
    } else {
      assert (items + [x])[1..] == items[1..] + [x];
      ArchivedSnoc(items[1..], x);
    }
  }

  /** The `unrestored` count: one per item holding an archive id. */
  method CountArchived(items: seq<JobRecord>) returns (n: nat)
    ensures n == |Archived(items)|
  {
    n := 0;
    var i := 0;
    while i < |items|
      invariant 0 <= i <= |items|
      invariant n == |Archived(items[..i])|
    {
      ArchivedSnoc(items[..i], items[i]);
      assert items[..i + 1] == items[..i] + [items[i]];
      if items[i].resultArchiveId.Some? {
        n := n + 1;
      }
      i := i + 1;
    }
    assert items[..i] == items;
  }

  /** The `archive-retrieval` request for an archived item in one tier, described by its job id. */
  function RequestFor(item: JobRecord, tier: Tier): RetrievalRequest
    requires item.resultArchiveId.Some?
  {
    RetrievalRequest(item.resultArchiveId.value, tier, item.jobId)
  }

  /** `initiate_job` as a state change: logged always, a new retrieval job when accepted. */
  function Submit(w: World, req: RetrievalRequest, accepted: bool): World
  {
    if accepted then
      w.(retrievals := w.retrievals[w.nextRetrieval := req], nextRetrieval := w.nextRetrieval + 1,
         retrievalLog := w.retrievalLog + [req])
    else w.(retrievalLog := w.retrievalLog + [req])
  }

  /**
   * One archived item: expedited first; on `InsufficientCapacityException`
   * standard; any other refusal, or a refused standard request, raises.
   */
  function ThawItem(w: World, item: JobRecord, glacier: (Handle, Tier) -> Option<string>): (res: (World, Outcome))
    requires item.resultArchiveId.Some?
    ensures var h := item.resultArchiveId.value;
            var fallback := glacier(h, Expedited) == Some(InsufficientCapacity);
            && (glacier(h, Expedited).None? ==> res.0.retrievalLog == w.retrievalLog + [RequestFor(item, Expedited)])
            && (fallback ==> res.0.retrievalLog == w.retrievalLog + [RequestFor(item, Expedited), RequestFor(item, Standard)])
            && (glacier(h, Expedited).Some? && !fallback ==> res == (w.(retrievalLog := w.retrievalLog + [RequestFor(item, Expedited)]),
                                                                     Raised(RetrievalRefused(glacier(h, Expedited).value))))
            && (res.1 == Done <==> glacier(h, Expedited).None? || (fallback && glacier(h, Standard).None?))
    ensures res.1 == Done ==>
      && res.0.nextRetrieval == w.nextRetrieval + 1
      && w.nextRetrieval in res.0.retrievals
      && res.0.retrievals == w.retrievals[w.nextRetrieval := res.0.retrievals[w.nextRetrieval]]
      && res.0.retrievals[w.nextRetrieval].archiveId == item.resultArchiveId.value
      && res.0.retrievals[w.nextRetrieval].description == item.jobId
    ensures res.1 != Done ==> res.1.Raised? && res.0.retrievals == w.retrievals && res.0.nextRetrieval == w.nextRetrieval
    ensures res.0 == w.(retrievals := res.0.retrievals, nextRetrieval := res.0.nextRetrieval, retrievalLog := res.0.retrievalLog)
  {
    var h := item.resultArchiveId.value;
    var expedited := RequestFor(item, Expedited);
    match glacier(h, Expedited)
    case None => (Submit(w, expedited, true), Done)
    case Some(code) =>
      var w1 := Submit(w, expedited, false);
      if code != InsufficientCapacity then (w1, Raised(RetrievalRefused(code)))
      else
        var standard := RequestFor(item, Standard);
        match glacier(h, Standard)
        case None => (Submit(w1, standard, true), Done)
        case Some(code2) => (Submit(w1, standard, false), Raised(RetrievalRefused(code2)))
  }

  /** The retrieval loop over the query's items, stopping at the first that raises. */
  function ThawItems(w: World, items: seq<JobRecord>, glacier: (Handle, Tier) -> Option<string>): (res: (World, Outcome))
    ensures res.1 == Done || res.1.Raised?
    ensures res.0 == w.(retrievals := res.0.retrievals, nextRetrieval := res.0.nextRetrieval, retrievalLog := res.0.retrievalLog)
    ensures w.retrievalLog <= res.0.retrievalLog
    ensures |res.0.retrievalLog| <= |w.retrievalLog| + 2 * |Archived(items)|
    ensures w.nextRetrieval <= res.0.nextRetrieval
    ensures forall r :: r in w.retrievals && r < w.nextRetrieval ==> r in res.0.retrievals && res.0.retrievals[r] == w.retrievals[r]
    ensures forall r :: r in res.0.retrievals ==> r in w.retrievals || w.nextRetrieval <= r < res.0.nextRetrieval
    decreases |items|
  {
    if items == [] then (w, Done)
    else if items[0].resultArchiveId.None? then ThawItems(w, items[1..], glacier)
    else
      var (w1, o) := ThawItem(w, items[0], glacier);
      if o.Raised? then (w1, o) else ThawItems(w1, items[1..], glacier)
  }

  /**
   * One thaw message: decode `user_id`; a failed query leaves the message
   * on the queue and goes on; otherwise the items (none when `Items` is
   * absent) are counted, the retrievals requested, and the message deleted
   * exactly when no request raised.
   */
  function ThawStep(w: World, m: Message, q: QueryAnswer, glacier: (Handle, Tier) -> Option<string>): (res: (World, Outcome))
    ensures Unwrap(m.body).Err? || StrField(Unwrap(m.body).value, "user_id").Err? ==> res.1.Raised? && res.0 == w
    ensures Unwrap(m.body).Ok? && StrField(Unwrap(m.body).value, "user_id").Ok? && q.QueryFailed? ==> res == (w, Skipped)
    ensures Unwrap(m.body).Ok? && StrField(Unwrap(m.body).value, "user_id").Ok? && q.Answer? ==>
      var (w1, o) := ThawItems(w, q.items.GetOr([]), glacier);
      res == (if o.Raised? then (w1, o) else (w1.(acked := w1.acked + {m.id}), Done))
    ensures Unwrap(m.body).Ok? && StrField(Unwrap(m.body).value, "user_id").Ok? && q == Answer(None) ==>
      res == (w.(acked := w.acked + {m.id}), Done)
    ensures res.1 == Done ==> q.Answer? && res.0.acked == w.acked + {m.id}
    ensures res.1 != Done ==> res.0.acked == w.acked
    ensures res.0.table == w.table && res.0.hot == w.hot && res.0.cold == w.cold
  {
    match Unwrap(m.body)
    case Err(e) => (w, Raised(DecodeFailed(e)))
    case Ok(doc) =>
      match StrField(doc, "user_id")
      case Err(e) => (w, Raised(DecodeFailed(e)))
      case Ok(_) =>
        match q
        case QueryFailed => (w, Skipped)
        case Answer(found) =>
          var (w1, o) := ThawItems(w, found.GetOr([]), glacier);
          if o.Raised? then (w1, o) else (w1.(acked := w1.acked + {m.id}), Done)
  }

  function StepOf(query: MessageId -> QueryAnswer, glacier: (Handle, Tier) -> Option<string>): (World, Message) -> (World, Outcome)
  {
    (w: World, m: Message) => ThawStep(w, m, query(m.id), glacier)
  }

  /** One archived item's requests, one `initiate_job` call at a time. */
  method ThawArchived(aws: Aws, item: JobRecord, glacier: (Handle, Tier) -> Option<string>) returns (o: Outcome)
    requires item.resultArchiveId.Some?
    modifies aws
    ensures (aws.State(), o) == ThawItem(old(aws.State()), item, glacier)
  {
    var h := item.resultArchiveId.value;
    var thawJobId: Option<RetrievalId> := None;
    var expedited := glacier(h, Expedited);
    thawJobId := aws.InitiateRetrieval(RequestFor(item, Expedited), expedited.None?);
    if expedited.Some? {
      if expedited.value != InsufficientCapacity {
        return Raised(RetrievalRefused(expedited.value));
      }
      var standard := glacier(h, Standard);
      thawJobId := aws.InitiateRetrieval(RequestFor(item, Standard), standard.None?);
      if standard.Some? {
        return Raised(RetrievalRefused(standard.value));
      }
    }
    o := Done;
  }

  /** The retrieval loop: items without an archive id are skipped. */
  method RequestRetrievals(aws: Aws, items: seq<JobRecord>, glacier: (Handle, Tier) -> Option<string>) returns (o: Outcome)
    modifies aws
    ensures (aws.State(), o) == ThawItems(old(aws.State()), items, glacier)
  {
    var i := 0;
    assert items[0..] == items;
    while i < |items|
      invariant 0 <= i <= |items|
      invariant ThawItems(old(aws.State()), items, glacier) == ThawItems(aws.State(), items[i..], glacier)
    {
      var rest := items[i..];
      assert rest[0] == items[i] && rest[1..] == items[i + 1..];
      if items[i].resultArchiveId.Some? {
        o := ThawArchived(aws, items[i], glacier);
        if o.Raised? {
          return;
        }
      }
      i := i + 1;
    }
    o := Done;
  }

  /** One thaw message, in the worker's order. */
  method ThawMessage(aws: Aws, m: Message, q: QueryAnswer, glacier: (Handle, Tier) -> Option<string>)
    returns (o: Outcome, unrestored: nat)
    modifies aws
    ensures (aws.State(), o) == ThawStep(old(aws.State()), m, q, glacier)
    ensures Unwrap(m.body).Ok? && StrField(Unwrap(m.body).value, "user_id").Ok? && q.Answer? ==>
      unrestored == |Archived(q.items.GetOr([]))|
  {
    unrestored := 0;
    var doc := Unwrap(m.body);
    if doc.Err? {
      return Raised(DecodeFailed(doc.error)), 0;
    }
    var userId := StrField(doc.value, "user_id");
    if userId.Err? {
      return Raised(DecodeFailed(userId.error)), 0;
    }
    if q.QueryFailed? {
      return Skipped, 0;
    }
    var items := q.items.GetOr([]);
    unrestored := CountArchived(items);
    o := RequestRetrievals(aws, items, glacier);
    if o.Raised? {
      return;
    }
    aws.Ack(m.id);
    o := Done;
  }

  /** `handle_thaw_queue`: a skipped message does not stop the batch, a raised one does. */
  method HandleThawQueue(aws: Aws, batch: seq<Message>, query: MessageId -> QueryAnswer, glacier: (Handle, Tier) -> Option<string>)
    returns (o: Outcome)
    modifies aws
    ensures (aws.State(), o) == RunBatch(StepOf(query, glacier), old(aws.State()), batch)
  {
    var step := StepOf(query, glacier);
    var i := 0;
    o := Done;
    assert batch[0..] == batch;
    while i < |batch|
      invariant 0 <= i <= |batch|
      invariant RunBatch(step, old(aws.State()), batch) == RunBatch(step, aws.State(), batch[i..])
    {
      var rest := batch[i..];
      assert rest[0] == batch[i] && rest[1..] == batch[i + 1..];
      var count;
      o, count := ThawMessage(aws, batch[i], query(batch[i].id), glacier);
      if o.Raised? {
        return;
      }
      i := i + 1;
    }
    o := Done;
  }

  /** The expedited requests for the archived items, in order. */
  function ExpeditedRequests(items: seq<JobRecord>): (reqs: seq<RetrievalRequest>)
    ensures |reqs| == |Archived(items)|
    decreases |items|
  {
    if items == [] then []
    else if items[0].resultArchiveId.Some? then [RequestFor(items[0], Expedited)] + ExpeditedRequests(items[1..])
    else ExpeditedRequests(items[1..])
  }

  /** `w'` follows `w` by issuing exactly `reqs`, in order, each accepted as the next retrieval job. */
  ghost predicate IssuedInOrder(w: World, w': World, reqs: seq<RetrievalRequest>)
  {
    && w'.retrievalLog == w.retrievalLog + reqs
    && w'.nextRetrieval == w.nextRetrieval + |reqs|
    && forall k :: 0 <= k < |reqs| ==> IssuedAt(w'.retrievals, w.nextRetrieval + k, reqs[k])
  }

  /** Retrieval job `r` is `req`. */
  ghost predicate IssuedAt(retrievals: map<RetrievalId, RetrievalRequest>, r: int, req: RetrievalRequest)
  {
    r in retrievals && retrievals[r] == req
  }

  lemma IssuedCons(w: World, w1: World, w': World, req: RetrievalRequest, reqs: seq<RetrievalRequest>)
    requires w1 == Submit(w, req, true)
    requires IssuedInOrder(w1, w', reqs)
    requires forall r :: r in w1.retrievals && r < w1.nextRetrieval ==> r in w'.retrievals && w'.retrievals[r] == w1.retrievals[r]
    ensures IssuedInOrder(w, w', [req] + reqs)
  {
    var all := [req] + reqs;
    assert w'.retrievalLog == w.retrievalLog + all;
    assert w.nextRetrieval in w1.retrievals && w.nextRetrieval < w1.nextRetrieval;
    forall k | 0 <= k < |all|
      ensures IssuedAt(w'.retrievals, w.nextRetrieval + k, all[k])
    {
      if k > 0 {
        assert all[k] == reqs[k - 1];
        assert IssuedAt(w'.retrievals, w1.nextRetrieval + (k - 1), reqs[k - 1]);
      }
    }
  }

  /**
   * When expedited capacity is there for every archived item, the loop
   * finishes, issues exactly one expedited request per archived item in the
   * items' order, and each becomes a retrieval job.
   */
  lemma {:induction false} ThawAllExpedited(w: World, items: seq<JobRecord>, glacier: (Handle, Tier) -> Option<string>)
    requires forall i :: 0 <= i < |items| && items[i].resultArchiveId.Some? ==>
      glacier(items[i].resultArchiveId.value, Expedited).None?
    ensures ThawItems(w, items, glacier).1 == Done
    ensures IssuedInOrder(w, ThawItems(w, items, glacier).0, ExpeditedRequests(items))
    decreases |items|
  {
    if items == [] {
      assert w.retrievalLog + [] == w.retrievalLog;
    } else {
      assert forall i :: 1 <= i < |items| ==> items[i] == items[1..][i - 1];
      if items[0].resultArchiveId.None? {
        ThawAllExpedited(w, items[1..], glacier);
      } else {
        var req := RequestFor(items[0], Expedited);
        var w1 := Submit(w, req, true);
        assert ThawItem(w, items[0], glacier) == (w1, Done);
        assert ThawItems(w, items, glacier) == ThawItems(w1, items[1..], glacier);
        ThawAllExpedited(w1, items[1..], glacier);
        IssuedCons(w, w1, ThawItems(w1, items[1..], glacier).0, req, ExpeditedRequests(items[1..]));
      }
    }
  }

  /** `r` is the request for one of `xs` that holds an archive id, in some tier. */
  ghost predicate IsRequestFor(r: RetrievalRequest, xs: seq<JobRecord>)
  {
    exists x :: x in xs && x.resultArchiveId.Some? && r == RequestFor(x, r.tier)
  }

  /** Each of `reqs` is the request for one of `xs`. */
  ghost predicate RequestsFor(reqs: seq<RetrievalRequest>, xs: seq<JobRecord>)
  {
    forall r :: r in reqs ==> IsRequestFor(r, xs)
  }

  lemma RequestsForWiden(reqs: seq<RetrievalRequest>, ys: seq<JobRecord>, xs: seq<JobRecord>)
    requires RequestsFor(reqs, ys)
    requires forall x :: x in ys ==> x in xs
    ensures RequestsFor(reqs, xs)
  {
    forall r | r in reqs ensures IsRequestFor(r, xs) {
      var x :| x in ys && x.resultArchiveId.Some? && r == RequestFor(x, r.tier);
      assert x in xs;
    }
  }

  /**
   * Every request the loop issues is for an item holding an archive id, in
   * one tier, described by that item's job id: an item without an archive
   * id causes no request.
   */
  lemma {:induction false} ThawItemsRequestsOnlyArchived(w: World, items: seq<JobRecord>, glacier: (Handle, Tier) -> Option<string>)
    ensures var w' := ThawItems(w, items, glacier).0;
            RequestsFor(w'.retrievalLog[|w.retrievalLog|..], Archived(items))
    decreases |items|
  {
    if items == [] {
      assert ThawItems(w, items, glacier).0.retrievalLog[|w.retrievalLog|..] == [];
    } else if items[0].resultArchiveId.None? {
      assert Archived(items) == Archived(items[1..]);
      assert ThawItems(w, items, glacier) == ThawItems(w, items[1..], glacier);
      ThawItemsRequestsOnlyArchived(w, items[1..], glacier);
    } else {
      var w1 := ThawItem(w, items[0], glacier).0;
      ThawItemRequests(w, items, glacier);
      if ThawItem(w, items[0], glacier).1.Done? {
        assert ThawItems(w, items, glacier) == ThawItems(w1, items[1..], glacier);
        ThawItemsRequestsOnlyArchived(w1, items[1..], glacier);
        RequestsForAppend(w.retrievalLog, w1.retrievalLog, ThawItems(w1, items[1..], glacier).0.retrievalLog,
                          Archived(items[1..]), Archived(items));
      } else {
        assert ThawItems(w, items, glacier) == ThawItem(w, items[0], glacier);
      }
    }
  }

  /** Two stretches of log, each of requests for archived items, make one. */
  lemma RequestsForAppend(log: seq<RetrievalRequest>, log1: seq<RetrievalRequest>, log2: seq<RetrievalRequest>,
                          ys: seq<JobRecord>, xs: seq<JobRecord>)
    requires log <= log1 <= log2
    requires RequestsFor(log1[|log|..], xs) && RequestsFor(log2[|log1|..], ys)
    requires forall x :: x in ys ==> x in xs
    ensures RequestsFor(log2[|log|..], xs)
  {
    RequestsForWiden(log2[|log1|..], ys, xs);
    assert log2[|log|..] == log1[|log|..] + log2[|log1|..];
  }

  /** The first item's own requests are for it, and archived items after it stay archived items. */
  lemma ThawItemRequests(w: World, items: seq<JobRecord>, glacier: (Handle, Tier) -> Option<string>)
    requires items != [] && items[0].resultArchiveId.Some?
    ensures var w1 := ThawItem(w, items[0], glacier).0;
            && w.retrievalLog <= w1.retrievalLog
            && RequestsFor(w1.retrievalLog[|w.retrievalLog|..], Archived(items))
    ensures forall x :: x in Archived(items[1..]) ==> x in Archived(items)
  {
    var w1 := ThawItem(w, items[0], glacier).0;
    assert Archived(items) == [items[0]] + Archived(items[1..]);
    var mine := w1.retrievalLog[|w.retrievalLog|..];
    assert mine == [RequestFor(items[0], Expedited)] || mine == [RequestFor(items[0], Expedited), RequestFor(items[0], Standard)];
    assert items[0] in Archived(items);
    forall r | r in mine ensures IsRequestFor(r, Archived(items)) {
      assert r == RequestFor(items[0], r.tier);
    }
  }

  /** Retrieval jobs `w.nextRetrieval`, `w.nextRetrieval + 1`, ... of `w'` are for `xs`, in order, each described by its job id. */
  ghost predicate RetrievedInOrder(w: World, w': World, xs: seq<JobRecord>)
  {
    forall i :: 0 <= i < |xs| ==> RetrievedAt(w'.retrievals, w.nextRetrieval + i, xs[i])
  }

  /** Retrieval job `r` is for `x`'s archive id and described by its job id. */
  ghost predicate RetrievedAt(retrievals: map<RetrievalId, RetrievalRequest>, r: int, x: JobRecord)
  {
    && r in retrievals
    && x.resultArchiveId == Some(retrievals[r].archiveId)
    && retrievals[r].description == x.jobId
  }

  lemma RetrievedCons(w: World, w1: World, w': World, x: JobRecord, xs: seq<JobRecord>)
    requires w1.nextRetrieval == w.nextRetrieval + 1 && w.nextRetrieval in w1.retrievals
    requires RetrievedAt(w1.retrievals, w.nextRetrieval, x)
    requires w.nextRetrieval in w'.retrievals && w'.retrievals[w.nextRetrieval] == w1.retrievals[w.nextRetrieval]
    requires RetrievedInOrder(w1, w', xs)
    ensures RetrievedInOrder(w, w', [x] + xs)
  {
    var all := [x] + xs;
    forall i | 0 <= i < |all|
      ensures RetrievedAt(w'.retrievals, w.nextRetrieval + i, all[i])
    {
      if i > 0 {
        assert all[i] == xs[i - 1];
        assert RetrievedAt(w'.retrievals, w1.nextRetrieval + (i - 1), xs[i - 1]);
      }
    }
  }

  /**
   * When the loop finishes, each archived item got exactly one accepted
   * retrieval job, in the items' order, for its archive id and described by
   * its job id.
   */
  lemma {:induction false} ThawItemsDoneRetrievesAll(w: World, items: seq<JobRecord>, glacier: (Handle, Tier) -> Option<string>)
    ensures ThawItems(w, items, glacier).1 == Done ==>
              && ThawItems(w, items, glacier).0.nextRetrieval == w.nextRetrieval + |Archived(items)|
              && RetrievedInOrder(w, ThawItems(w, items, glacier).0, Archived(items))
    decreases |items|
  {
    if items != [] && ThawItems(w, items, glacier).1 == Done {
      if items[0].resultArchiveId.None? {
        assert Archived(items) == Archived(items[1..]);
        assert ThawItems(w, items, glacier) == ThawItems(w, items[1..], glacier);
        ThawItemsDoneRetrievesAll(w, items[1..], glacier);
      } else {
        var w1 := ThawItem(w, items[0], glacier).0;
        assert ThawItem(w, items[0], glacier).1 == Done;
        ThawItemDoneRetrieves(w, items[0], glacier);
        assert ThawItems(w, items, glacier) == ThawItems(w1, items[1..], glacier);
        var w' := ThawItems(w1, items[1..], glacier).0;
        ThawItemsDoneRetrievesAll(w1, items[1..], glacier);
        assert Archived(items) == [items[0]] + Archived(items[1..]);
        RetrievedCons(w, w1, w', items[0], Archived(items[1..]));
      }
    }
  }

  /** An item whose requests finish gets the next retrieval job. */
  lemma ThawItemDoneRetrieves(w: World, item: JobRecord, glacier: (Handle, Tier) -> Option<string>)
    requires item.resultArchiveId.Some?
    requires ThawItem(w, item, glacier).1 == Done
    ensures var w1 := ThawItem(w, item, glacier).0;
            && w1.nextRetrieval == w.nextRetrieval + 1
            && RetrievedAt(w1.retrievals, w.nextRetrieval, item)
  {
  }

  /**
   * The loop stopped at item `j`: it holds an archive id, the items before
   * it were handled without a raise, and its own requests give the result,
   * so the items after it cause no request.
   */
  ghost predicate StopsAt(w: World, items: seq<JobRecord>, glacier: (Handle, Tier) -> Option<string>, j: int)
  {
    && 0 <= j < |items|
    && items[j].resultArchiveId.Some?
    && ThawItems(w, items[..j], glacier).1 == Done
    && ThawItem(ThawItems(w, items[..j], glacier).0, items[j], glacier) == ThawItems(w, items, glacier)
  }

  /** The loop stops at the first item whose request raises. */
  lemma {:induction false} ThawItemsStopsAtRaise(w: World, items: seq<JobRecord>, glacier: (Handle, Tier) -> Option<string>)
    ensures ThawItems(w, items, glacier).1.Raised? ==> exists j :: StopsAt(w, items, glacier, j)
    decreases |items|
  {
    if items != [] && ThawItems(w, items, glacier).1.Raised? {
      if items[0].resultArchiveId.Some? && ThawItem(w, items[0], glacier).1.Raised? {
        StopsAtFirst(w, items, glacier);
      } else {
        var w1 := if items[0].resultArchiveId.None? then w else ThawItem(w, items[0], glacier).0;
        assert ThawItems(w, items, glacier) == ThawItems(w1, items[1..], glacier);
        ThawItemsStopsAtRaise(w1, items[1..], glacier);
        var j :| StopsAt(w1, items[1..], glacier, j);
        StopsShift(w, w1, items, j, glacier);
      }
    }
  }

  lemma StopsAtFirst(w: World, items: seq<JobRecord>, glacier: (Handle, Tier) -> Option<string>)
    requires items != [] && items[0].resultArchiveId.Some? && ThawItem(w, items[0], glacier).1.Raised?
    ensures StopsAt(w, items, glacier, 0)
  {
    assert items[..0] == [];
  }

  /** Moving past a first item that did not raise shifts the stopping point by one. */
  lemma StopsShift(w: World, w1: World, items: seq<JobRecord>, j: int, glacier: (Handle, Tier) -> Option<string>)
    requires items != [] && StopsAt(w1, items[1..], glacier, j)
    requires items[0].resultArchiveId.None? ==> w1 == w
    requires items[0].resultArchiveId.Some? ==> ThawItem(w, items[0], glacier) == (w1, Done)
    ensures StopsAt(w, items, glacier, j + 1)
  {
    var pre := items[..j + 1];
    assert pre[0] == items[0] && pre[1..] == items[1..][..j];
    assert ThawItems(w, pre, glacier) == ThawItems(w1, items[1..][..j], glacier);
    assert ThawItems(w, items, glacier) == ThawItems(w1, items[1..], glacier);
    assert items[j + 1] == items[1..][j];
  }

  /** A thaw batch keeps the lifecycle invariant and advances the state. */
  lemma ThawBatchKeepsGood(w: World, batch: seq<Message>, query: MessageId -> QueryAnswer, glacier: (Handle, Tier) -> Option<string>)
    requires Good(w)
    ensures Good(RunBatch(StepOf(query, glacier), w, batch).0)
    ensures Advances(w, RunBatch(StepOf(query, glacier), w, batch).0)
  {
    var step := StepOf(query, glacier);
    forall v, m ensures Good(v) ==> Good(step(v, m).0) && Advances(v, step(v, m).0) {
      assert step(v, m) == ThawStep(v, m, query(m.id), glacier);
    }
    BatchKeeps(step, (v: World) => Good(v), w, batch);
    BatchAdvances(step, (v: World) => Good(v), w, batch);
  }
}
