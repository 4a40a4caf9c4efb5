/**
 * The web layer's part of the job lifecycle: the upload key it hands out,
 * the PENDING record it writes when the upload redirect comes back, the
 * request it publishes to the annotation workers, and the three read-only
 * pages (the job list, one job's details, one job's log).
 *
 * The session user, the profile's e-mail address, the clock and the
 * time-zone conversion are parameters; a store fault is a boolean parameter.
 */
module Views {
  import opened Wrappers
  import opened Text
  import opened Keys
  import opened Jobs
  import opened JsonDoc
  import opened Cloud

  /** Why a page is not rendered normally. */
  datatype PageError =
    | BadKey(e: KeyError)     // the key does not split as expected: the view raises
    | NoItem                  // `query_results['Items'][0]` raises IndexError
    | NoSuchObject            // `obj.get()` on a missing object raises
    | PutRejected             // `put_item` failed: error page
    | PublishRejected         // `publish` failed: error page
    | ListRejected            // `list_objects` failed: error page
    | QueryError              // a table `query` failed: error page

  /**
   * The PENDING record built from the upload redirect: job id and file name
   * from the key, the user from the session, the inputs bucket from the
   * configuration.
   */
  function NewJobRecord(key: string, sessionUser: string, inputsBucket: string, submitTime: int): (r: Result<JobRecord, KeyError>)
    ensures r.Ok? <==> ParseUploadKey(key).Ok?
    ensures r.Ok? ==>
      && r.value.jobId == ParseUploadKey(key).value.jobId
      && r.value.inputFileName == ParseUploadKey(key).value.fileName
      && r.value.inputKey == key
      && r.value.userId == sessionUser
      && r.value.inputsBucket == inputsBucket
      && r.value.submitTime == submitTime
    ensures r.Ok? ==>
      && r.value.status == Pending
      && !r.value.archived
      && r.value.resultArchiveId.None?
      && r.value.completion.None?
  {
    var name :- ParseUploadKey(key);
    Ok(JobRecord(name.jobId, sessionUser, name.fileName, inputsBucket, key, submitTime,
                 Pending, false, None, None))
  }

  /** The request document: the record's attributes plus the user's e-mail address. */
  function RequestDoc(r: JobRecord, email: string): Json
  {
    JObj(map[
      "job_id" := JStr(r.jobId),
      "user_id" := JStr(r.userId),
      "input_file_name" := JStr(r.inputFileName),
      "s3_inputs_bucket" := JStr(r.inputsBucket),
      "s3_key_input_file" := JStr(r.inputKey),
      "submit_time" := JInt(r.submitTime),
      "job_status" := JStr(StatusName(r.status)),
      "archived" := JBool(r.archived),
      "email" := JStr(email)])
  }

  /** The thaw request published when a user becomes premium. */
  function ThawRequestDoc(userId: string): Json
  {
    JObj(map["user_id" := JStr(userId)])
  }

  /**
   * The record a browser upload leads to: when the key is the one the
   * upload form handed out, the record carries that uuid and file name.
   */
  lemma NewRecordFromUpload(p: string, userId: string, uuid: string, fileName: string,
                            sessionUser: string, inputsBucket: string, submitTime: int)
    requires '/' !in p && '/' !in userId && '/' !in uuid && '/' !in fileName
    requires '~' !in uuid && '~' !in fileName
    ensures var r := NewJobRecord(UploadKey(p + "/", userId, uuid, fileName), sessionUser, inputsBucket, submitTime);
            r.Ok? && r.value.jobId == uuid && r.value.inputFileName == fileName
  {
    UploadKeyRoundTrip(p, userId, uuid, fileName);
  }

  /**
   * Handling the upload redirect: build the record, persist it, publish the
   * request. A malformed key raises before anything is written; a rejected
   * put writes nothing; a rejected publish leaves the PENDING record behind
   * with no request on its way. `published` is the body the request queue
   * receives.
   */
  method CreateAnnotationJobRequest(aws: Aws, key: string, sessionUser: string, inputsBucket: string,
                                    submitTime: int, email: string, putOk: bool, publishOk: bool)
    returns (r: Result<JobId, PageError>, published: Option<Json>)
    modifies aws
    ensures NewJobRecord(key, sessionUser, inputsBucket, submitTime).Err? ==>
      r == Err(BadKey(ParseUploadKey(key).error)) && published.None? && aws.State() == old(aws.State())
    ensures NewJobRecord(key, sessionUser, inputsBucket, submitTime).Ok? && !putOk ==>
      r == Err(PutRejected) && published.None? && aws.State() == old(aws.State())
    ensures NewJobRecord(key, sessionUser, inputsBucket, submitTime).Ok? && putOk ==>
      var rec := NewJobRecord(key, sessionUser, inputsBucket, submitTime).value;
      && aws.State() == old(aws.State()).(table := old(aws.table)[rec.jobId := rec])
      && (publishOk ==> r == Ok(rec.jobId) && published == Some(Delivered(RequestDoc(rec, email))))
      && (!publishOk ==> r == Err(PublishRejected) && published.None?)
  {
    published := None;
    var made := NewJobRecord(key, sessionUser, inputsBucket, submitTime);
    if made.Err? {
      return Err(BadKey(made.error)), None;
    }
    if !putOk {
      return Err(PutRejected), None;
    }
    var rec := made.value;
    aws.PutItem(rec);
    if !publishOk {
      return Err(PublishRejected), None;
    }
    published := Some(Delivered(RequestDoc(rec, email)));
    r := Ok(rec.jobId);
  }

  /** The broken-down local time fields `time.localtime` yields that the pages use. */
  datatype Tm = Tm(year: nat, mon: nat, mday: nat, hour: nat, min: nat)

  /** `str(x)`, with a '0' put in front when that is shorter than two characters. */
  function Pad2(n: nat): (r: string)
    ensures |r| >= 2 && AllDigits(r)
    ensures DecimalValue(r) == n
    ensures r[0] == '0' <==> n < 10
    ensures n < 100 ==> |r| == 2
  {
    var s := NatToString(n);
    NatToStringLength(n);
    DecimalOfNatToString(n);
    NatToStringNoLeadingZero(n);
    if |s| < 2 then
      DecimalLeadingZero(s);
      "0" + s
    else s
  }

  /** `f"{year}-{month}-{day} {hour}:{minute}"` with the four padded fields. */
  function FormatTime(tm: Tm): string
  {
    NatToString(tm.year) + "-" + Pad2(tm.mon) + "-" + Pad2(tm.mday) + " " + Pad2(tm.hour) + ":" + Pad2(tm.min)
  }

  /**
   * For fields below 100 the formatted time is the year, then four two-digit
   * fields at fixed offsets after it, each reading back as its value.
   */
  lemma FormatTimeFields(tm: Tm)
    requires tm.mon < 100 && tm.mday < 100 && tm.hour < 100 && tm.min < 100
    ensures var r := FormatTime(tm);
            var y := NatToString(tm.year);
            && |r| == |y| + 12
            && r[..|y|] == y
            && r[|y|] == '-' && r[|y| + 3] == '-' && r[|y| + 6] == ' ' && r[|y| + 9] == ':'
            && AllDigits(r[|y| + 1..|y| + 3]) && DecimalValue(r[|y| + 1..|y| + 3]) == tm.mon
            && AllDigits(r[|y| + 4..|y| + 6]) && DecimalValue(r[|y| + 4..|y| + 6]) == tm.mday
            && AllDigits(r[|y| + 7..|y| + 9]) && DecimalValue(r[|y| + 7..|y| + 9]) == tm.hour
            && AllDigits(r[|y| + 10..]) && DecimalValue(r[|y| + 10..]) == tm.min
  {
    var y := NatToString(tm.year);
    var r := FormatTime(tm);
    TimeLayout(y, Pad2(tm.mon), Pad2(tm.mday), Pad2(tm.hour), Pad2(tm.min));
    assert r[|y| + 1..|y| + 3] == Pad2(tm.mon);
    assert r[|y| + 4..|y| + 6] == Pad2(tm.mday);
    assert r[|y| + 7..|y| + 9] == Pad2(tm.hour);
    assert r[|y| + 10..] == Pad2(tm.min);
  }

  /** Where the characters of `Y-MM-DD HH:MM` sit, for any year text and two-character fields. */
  lemma TimeLayout(y: string, mon: string, mday: string, hour: string, min: string)
    requires |mon| == 2 && |mday| == 2 && |hour| == 2 && |min| == 2
    ensures var r := y + "-" + mon + "-" + mday + " " + hour + ":" + min;
            && |r| == |y| + 12
            && r[..|y|] == y
            && r[|y|] == '-' && r[|y| + 3] == '-' && r[|y| + 6] == ' ' && r[|y| + 9] == ':'
            && r[|y| + 1] == mon[0] && r[|y| + 2] == mon[1]
            && r[|y| + 4] == mday[0] && r[|y| + 5] == mday[1]
            && r[|y| + 7] == hour[0] && r[|y| + 8] == hour[1]
            && r[|y| + 10] == min[0] && r[|y| + 11] == min[1]
  {
    var r := y + "-" + mon + "-" + mday + " " + hour + ":" + min;
    assert y <= y + "-" <= y + "-" + mon <= y + "-" + mon + "-" <= y + "-" + mon + "-" + mday;
    assert y + "-" + mon + "-" + mday <= y + "-" + mon + "-" + mday + " " <= y + "-" + mon + "-" + mday + " " + hour;
    assert y + "-" + mon + "-" + mday + " " + hour <= y + "-" + mon + "-" + mday + " " + hour + ":" <= r;
  }

  /** One row of the job list. */
  datatype ListEntry = ListEntry(jobId: JobId, requestTime: string, vcfFileName: string, status: string)

  function EntryOf(id: JobId, r: JobRecord, localtime: int -> Tm): ListEntry
  {
    ListEntry(id, FormatTime(localtime(r.submitTime)), r.inputFileName, StatusName(r.status))
  }

  /**
   * The job list for the keys the bucket listing returned, in order: a key
   * with fewer than three "/"-segments makes the page raise; a failed query
   * for a key's job gives the error page; a key whose job has no record is
   * skipped. `queryOk(id)` says whether the query for job `id` goes through.
   */
  function Listing(t: Table, keys: seq<string>, localtime: int -> Tm, queryOk: JobId -> bool): Result<seq<ListEntry>, PageError>
    decreases |keys|
  {
    if keys == [] then Ok([])
    else
      match ListingJobId(keys[0])
      case Err(e) => Err(BadKey(e))
      case Ok(id) =>
        if !queryOk(id) then Err(QueryError)
        else
          var rest :- Listing(t, keys[1..], localtime, queryOk);
          if id in t then Ok([EntryOf(id, t[id], localtime)] + rest) else Ok(rest)
  }

  /** The bucket listing's prefix: the key prefix followed by the user id, with no "/" after it. */
  function ListPrefix(prefix: string, userId: string): string
  {
    prefix + userId
  }

  /** The rows of `x` followed by those of `y`; the first error wins. */
  function Then(x: Result<seq<ListEntry>, PageError>, y: Result<seq<ListEntry>, PageError>): Result<seq<ListEntry>, PageError>
  {
    if x.Err? then x else if y.Err? then y else Ok(x.value + y.value)
  }

  lemma ThenUnit(r: Result<seq<ListEntry>, PageError>)
    ensures Then(Ok([]), r) == r
  {
    if r.Ok? {
      assert [] + r.value == r.value;
    }
  }

  lemma ThenAssoc(x: Result<seq<ListEntry>, PageError>, y: Result<seq<ListEntry>, PageError>, z: Result<seq<ListEntry>, PageError>)
    ensures Then(x, Then(y, z)) == Then(Then(x, y), z)
  {
    if x.Ok? && y.Ok? && z.Ok? {
      assert x.value + (y.value + z.value) == (x.value + y.value) + z.value;
    }
  }

  /**
   * The job-list page. `listOk` says whether the bucket listing goes
   * through, and `contents` is its `Contents`, absent when the prefix
   * matches no object; `queryOk(id)` says whether the query for job `id`
   * goes through. The table is read, never written.
   */
  method AnnotationsList(aws: Aws, listOk: bool, contents: Option<seq<string>>, localtime: int -> Tm, queryOk: JobId -> bool)
    returns (page: Result<seq<ListEntry>, PageError>)
    ensures !listOk ==> page == Err(ListRejected)
    ensures listOk && contents.None? ==> page == Ok([])
    ensures listOk && contents.Some? ==> page == Listing(aws.table, contents.value, localtime, queryOk)
  {
    if !listOk {
      return Err(ListRejected);
    }
    if contents.None? {
      return Ok([]);
    }
    var keys := contents.value;
    var entries: seq<ListEntry> := [];
    var i := 0;
    assert keys[0..] == keys;
    ThenUnit(Listing(aws.table, keys, localtime, queryOk));
    while i < |keys|
      invariant 0 <= i <= |keys|
      invariant Listing(aws.table, keys, localtime, queryOk) == Then(Ok(entries), Listing(aws.table, keys[i..], localtime, queryOk))
    {
      ghost var rest := keys[i..];
      assert rest[0] == keys[i] && rest[1..] == keys[i + 1..];
      ListingCons(aws.table, rest, localtime, queryOk);
      var id := ListingJobId(keys[i]);
      if id.Err? {
        return Err(BadKey(id.error));
      }
      if !queryOk(id.value) {
        return Err(QueryError);
      }
      ghost var later := Listing(aws.table, keys[i + 1..], localtime, queryOk);
      ThenAssoc(Ok(entries), KeyRows(aws.table, keys[i], localtime, queryOk), later);
      if id.value in aws.table {
        entries := entries + [EntryOf(id.value, aws.table[id.value], localtime)];
      } else {
        assert entries + [] == entries;
      }
      i := i + 1;
    }
    assert keys[i..] == [];
    assert entries + [] == entries;
    page := Ok(entries);
  }

  /**
   * The list is produced exactly when every listed key has a third
   * "/"-segment and the query for each key's job goes through.
   */
  lemma {:induction false} ListingOkIff(t: Table, keys: seq<string>, localtime: int -> Tm, queryOk: JobId -> bool)
    ensures Listing(t, keys, localtime, queryOk).Ok? <==>
      forall i :: 0 <= i < |keys| ==> ListingJobId(keys[i]).Ok? && queryOk(ListingJobId(keys[i]).value)
    decreases |keys|
  {
    if keys != [] {
      ListingOkIff(t, keys[1..], localtime, queryOk);
      assert forall i :: 1 <= i < |keys| ==> keys[i] == keys[1..][i - 1];
    }
  }

  /**
   * The rows one key contributes: its record's row, none without a record,
   * or the page's error when the key does not split or its query fails.
   */
  function KeyRows(t: Table, key: string, localtime: int -> Tm, queryOk: JobId -> bool): Result<seq<ListEntry>, PageError>
  {
    match ListingJobId(key)
    case Err(e) => Err(BadKey(e))
    case Ok(id) =>
      if !queryOk(id) then Err(QueryError)
      else Ok(if id in t then [EntryOf(id, t[id], localtime)] else [])
  }

  /** One step of the listing loop: the first key's rows, then the rest's. */
  lemma ListingCons(t: Table, keys: seq<string>, localtime: int -> Tm, queryOk: JobId -> bool)
    requires keys != []
    ensures Listing(t, keys, localtime, queryOk) == Then(KeyRows(t, keys[0], localtime, queryOk), Listing(t, keys[1..], localtime, queryOk))
  {
    var rest := Listing(t, keys[1..], localtime, queryOk);
    if ListingJobId(keys[0]).Ok? && rest.Ok? && ListingJobId(keys[0]).value !in t {
      assert [] + rest.value == rest.value;
    }
  }

  /**
   * A failed listing fails at its first failing key: every key before it
   * contributes rows, and the page's error is that key's (a key that does
   * not split raises, a failed query gives the error page).
   */
  lemma {:induction false} ListingFailsAtFirstFailure(t: Table, keys: seq<string>, localtime: int -> Tm, queryOk: JobId -> bool)
    requires Listing(t, keys, localtime, queryOk).Err?
    ensures exists i :: 0 <= i < |keys| && FirstFailure(t, keys, localtime, queryOk, i)
    decreases |keys|
  {
    ListingCons(t, keys, localtime, queryOk);
    if KeyRows(t, keys[0], localtime, queryOk).Err? {
      assert FirstFailure(t, keys, localtime, queryOk, 0);
    } else {
      ListingFailsAtFirstFailure(t, keys[1..], localtime, queryOk);
      var i :| 0 <= i < |keys[1..]| && FirstFailure(t, keys[1..], localtime, queryOk, i);
      assert keys[1..][i] == keys[i + 1];
      forall j | 0 <= j < i + 1
        ensures KeyRows(t, keys[j], localtime, queryOk).Ok?
      {
        if j > 0 {
          assert keys[j] == keys[1..][j - 1];
        }
      }
      assert FirstFailure(t, keys, localtime, queryOk, i + 1);
    }
  }

  /** Key `i` is the first whose rows fail, and the listing's error is its error. */
  ghost predicate FirstFailure(t: Table, keys: seq<string>, localtime: int -> Tm, queryOk: JobId -> bool, i: int)
    requires 0 <= i < |keys|
  {
    && KeyRows(t, keys[i], localtime, queryOk).Err?
    && Listing(t, keys, localtime, queryOk) == KeyRows(t, keys[i], localtime, queryOk)
    && forall j :: 0 <= j < i ==> KeyRows(t, keys[j], localtime, queryOk).Ok?
  }

  /** A single key's listing is what that key contributes. */
  lemma ListingOneKey(t: Table, key: string, localtime: int -> Tm, queryOk: JobId -> bool)
    ensures Listing(t, [key], localtime, queryOk) == KeyRows(t, key, localtime, queryOk)
  {
    ListingCons(t, [key], localtime, queryOk);
    assert [key][1..] == [];
    if KeyRows(t, key, localtime, queryOk).Ok? {
      assert KeyRows(t, key, localtime, queryOk).value + [] == KeyRows(t, key, localtime, queryOk).value;
    }
  }

  /**
   * The listing of two runs of keys is the listing of the first followed by
   * that of the second: rows keep the bucket listing's order, and each key
   * contributes its own rows and no others.
   */
  lemma {:induction false} ListingAppend(t: Table, a: seq<string>, b: seq<string>, localtime: int -> Tm, queryOk: JobId -> bool)
    ensures Listing(t, a + b, localtime, queryOk) == Then(Listing(t, a, localtime, queryOk), Listing(t, b, localtime, queryOk))
    decreases |a|
  {
    if a == [] {
      assert a + b == b;
      ThenUnit(Listing(t, b, localtime, queryOk));
    } else {
      assert (a + b)[0] == a[0] && (a + b)[1..] == a[1..] + b;
      ListingCons(t, a + b, localtime, queryOk);
      ListingAppend(t, a[1..], b, localtime, queryOk);
      ThenAssoc(KeyRows(t, a[0], localtime, queryOk), Listing(t, a[1..], localtime, queryOk), Listing(t, b, localtime, queryOk));
      ListingCons(t, a, localtime, queryOk);
    }
  }

  /**
   * Every row comes from a listed key and its record: the row's job id is
   * the id of some listed key and has a record, and the request time, file
   * name and status are that record's. There is at most one row per key.
   */
  lemma {:induction false} ListingRowsFromRecords(t: Table, keys: seq<string>, localtime: int -> Tm, queryOk: JobId -> bool)
    requires Listing(t, keys, localtime, queryOk).Ok?
    ensures |Listing(t, keys, localtime, queryOk).value| <= |keys|
    ensures forall e :: e in Listing(t, keys, localtime, queryOk).value ==>
      && e.jobId in t && e == EntryOf(e.jobId, t[e.jobId], localtime)
      && exists i :: 0 <= i < |keys| && ListingJobId(keys[i]) == Ok(e.jobId)
    decreases |keys|
  {
    if keys != [] {
      ListingCons(t, keys, localtime, queryOk);
      ListingRowsFromRecords(t, keys[1..], localtime, queryOk);
      forall e | e in Listing(t, keys, localtime, queryOk).value
        ensures exists i :: 0 <= i < |keys| && ListingJobId(keys[i]) == Ok(e.jobId)
      {
        if e in KeyRows(t, keys[0], localtime, queryOk).value {
          assert ListingJobId(keys[0]) == Ok(e.jobId);
        } else {
          var i :| 0 <= i < |keys[1..]| && ListingJobId(keys[1..][i]) == Ok(e.jobId);
          assert keys[1..][i] == keys[i + 1];
        }
      }
    }
  }

  /** Every listed key whose job has a record shows up as a row. */
  lemma {:induction false} ListingShowsRecordedKeys(t: Table, keys: seq<string>, localtime: int -> Tm, queryOk: JobId -> bool, i: nat)
    requires Listing(t, keys, localtime, queryOk).Ok?
    requires i < |keys|
    requires ListingJobId(keys[i]).Ok? && ListingJobId(keys[i]).value in t
    ensures var id := ListingJobId(keys[i]).value;
            EntryOf(id, t[id], localtime) in Listing(t, keys, localtime, queryOk).value
    decreases |keys|
  {
    ListingCons(t, keys, localtime, queryOk);
    if i > 0 {
      assert keys[1..][i - 1] == keys[i];
      ListingShowsRecordedKeys(t, keys[1..], localtime, queryOk, i - 1);
    }
  }

  /**
   * The listing prefix has no "/" after the user id, so a user whose id
   * extends another's ("u1" and "u10") has keys under the other's prefix;
   * with a record for that job, the other user's list shows it (unless
   * the query for it fails).
   */
  lemma ListingPrefixCoversLongerUserId(p: string, uuid: string, fileName: string, t: Table, localtime: int -> Tm, queryOk: JobId -> bool)
    requires '/' !in p && '/' !in uuid && '/' !in fileName && '~' !in uuid && '~' !in fileName
    requires uuid in t
    ensures var key := UploadKey(p + "/", "u10", uuid, fileName);
            && key[..|ListPrefix(p + "/", "u1")|] == ListPrefix(p + "/", "u1")
            && Listing(t, [key], localtime, queryOk)
               == if queryOk(uuid) then Ok([EntryOf(uuid, t[uuid], localtime)]) else Err(QueryError)
  {
    var key := UploadKey(p + "/", "u10", uuid, fileName);
    var pre := ListPrefix(p + "/", "u1");
    UploadKeyRoundTrip(p, "u10", uuid, fileName);
    assert key == pre + ("0/" + uuid + "~" + fileName);
    assert key[..|pre|] == pre;
    assert ListingJobId(key) == Ok(uuid);
    var single: seq<string> := [key];
    assert single[0] == key && single[1..] == [];
    assert Listing(t, single[1..], localtime, queryOk) == Ok([]);
    var e := EntryOf(uuid, t[uuid], localtime);
    assert [e] + [] == [e];
  }

  /** The details page of one job. */
  datatype Details = Details(
    jobId: JobId,
    requestTime: string,
    completeTime: Option<string>,
    vcfFileName: string,
    status: string,
    archived: bool,
    downloadable: bool,
    downloadKey: Option<string>,
    isPremium: bool)

  datatype DetailsPage = Forbidden | Shown(details: Details)

  /**
   * The details page: the error page when the query fails (`queryOk` is
   * false); 403 for anyone but the owner; otherwise the times, the status
   * and flags, and a download link to the results bucket only while the
   * record holds no archive id.
   */
  function AnnotationDetails(t: Table, id: JobId, sessionUser: string, role: string, prefix: string,
                             localtime: int -> Tm, queryOk: bool): (r: Result<DetailsPage, PageError>)
    ensures r == Err(QueryError) <==> !queryOk
    ensures r.Err? <==> !queryOk || id !in t
    ensures queryOk && id !in t ==> r == Err(NoItem)
    ensures r == Ok(Forbidden) <==> queryOk && id in t && sessionUser != t[id].userId
    ensures r.Ok? && r.value.Shown? ==>
      var d := r.value.details;
      && d.jobId == id
      && d.requestTime == FormatTime(localtime(t[id].submitTime))
      && (d.completeTime.Some? <==> t[id].completion.Some?)
      && (d.completeTime.Some? ==> d.completeTime.value == FormatTime(localtime(t[id].completion.value.completeTime)))
      && d.status == StatusName(t[id].status)
      && d.archived == t[id].archived
      && (d.downloadable <==> t[id].resultArchiveId.None?)
      && (d.downloadKey.Some? <==> d.downloadable)
      && (d.downloadable ==> d.downloadKey.value == DownloadKey(prefix, sessionUser, id, t[id].inputFileName))
      && (d.isPremium <==> role == "premium_user")
  {
    if !queryOk then Err(QueryError)
    else if id !in t then Err(NoItem)
    else
      var item := t[id];
      if sessionUser != item.userId then Ok(Forbidden)
      else
        var complete := if item.completion.Some? then Some(FormatTime(localtime(item.completion.value.completeTime))) else None;
        var downloadable := item.resultArchiveId.None?;
        var link := if downloadable then Some(DownloadKey(prefix, sessionUser, id, item.inputFileName)) else None;
        Ok(Shown(Details(id, FormatTime(localtime(item.submitTime)), complete, item.inputFileName,
                         StatusName(item.status), item.archived, downloadable, link, role == "premium_user")))
  }

  /**
   * The log page: the object under the session user's log key in the results
   * bucket. There is no owner check; the session user's id goes into the key.
   */
  function AnnotationLog(w: World, id: JobId, sessionUser: string, prefix: string, resultsBucket: string): (r: Result<Bytes, PageError>)
    ensures r.Ok? <==> id in w.table && ObjectRef(resultsBucket, WebLogKey(prefix, sessionUser, id, w.table[id].inputFileName)) in w.hot
    ensures r.Ok? ==> r.value == w.hot[ObjectRef(resultsBucket, WebLogKey(prefix, sessionUser, id, w.table[id].inputFileName))]
    ensures id !in w.table ==> r == Err(NoItem)
  {
    if id !in w.table then Err(NoItem)
    else
      var o := ObjectRef(resultsBucket, WebLogKey(prefix, sessionUser, id, w.table[id].inputFileName));
      if o in w.hot then Ok(w.hot[o]) else Err(NoSuchObject)
  }
}
