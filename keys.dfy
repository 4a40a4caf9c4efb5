/**
 * The object-key naming scheme. The web layer builds the upload key and
 * parses it back; the annotation run derives the result and log keys from
 * the input key and its local path; the web layer rebuilds those two keys
 * on its own from the stored file name.
 */
module Keys {
  import opened Wrappers
  import opened Text

  /** The upload key `prefix + user_id + "/" + uuid + "~" + filename`. */
  function UploadKey(prefix: string, userId: string, uuid: string, fileName: string): string
  {
    prefix + userId + "/" + uuid + "~" + fileName
  }

  datatype KeyError =
    | TooFewSegments   // `segments[2]` raises IndexError
    | NotOneTilde      // `[job_id, file_name] = ...` raises ValueError

  datatype JobName = JobName(jobId: string, fileName: string)

  /** `[job_id, file_name] = s3_key.split('/')[2].split('~')` */
  function ParseUploadKey(key: string): Result<JobName, KeyError>
  {
    var segments := Split(key, '/');
    if |segments| < 3 then Err(TooFewSegments)
    else
      var pieces := Split(segments[2], '~');
      if |pieces| != 2 then Err(NotOneTilde) else Ok(JobName(pieces[0], pieces[1]))
  }

  /** `file_key.split('/')[2].split('~')[0]`, the job id the listing reads off a key. */
  function ListingJobId(key: string): Result<string, KeyError>
  {
    var segments := Split(key, '/');
    if |segments| < 3 then Err(TooFewSegments) else Ok(Split(segments[2], '~')[0])
  }

  lemma Join2(a: string, b: string, c: char)
    ensures Join([a, b], c) == a + [c] + b
  {
    assert [a, b][1..] == [b];
  }

  /**
   * Parsing an upload key gives back the uuid as job id and the file name,
   * when the prefix is one segment ending in "/" and no part holds "/" or "~"
   * where it would be read as a separator.
   */
  lemma UploadKeyRoundTrip(p: string, userId: string, uuid: string, fileName: string)
    requires '/' !in p && '/' !in userId && '/' !in uuid && '/' !in fileName
    requires '~' !in uuid && '~' !in fileName
    ensures ParseUploadKey(UploadKey(p + "/", userId, uuid, fileName)) == Ok(JobName(uuid, fileName))
    ensures ListingJobId(UploadKey(p + "/", userId, uuid, fileName)) == Ok(uuid)
  {
    var last := uuid + "~" + fileName;
    assert '/' !in last by {
      assert forall i :: 0 <= i < |last| ==> last[i] != '/' by {
        forall i | 0 <= i < |last| ensures last[i] != '/' {
          if i < |uuid| { assert last[i] == uuid[i]; }
          else if i > |uuid| { assert last[i] == fileName[i - |uuid| - 1]; }
        }
      }
    }
    Join3(p, userId, last, '/');
    assert UploadKey(p + "/", userId, uuid, fileName) == Join([p, userId, last], '/');
    SplitJoin([p, userId, last], '/');
    Join2(uuid, fileName, '~');
    SplitJoin([uuid, fileName], '~');
  }

  /**
   * Parsing succeeds exactly when the key has at least two "/" and its third
   * "/"-segment holds exactly one "~".
   */
  lemma ParseUploadKeyOkIff(key: string)
    ensures |Split(key, '/')| == Count(key, '/') + 1
    ensures ParseUploadKey(key).Ok? <==>
      Count(key, '/') >= 2 && Count(Split(key, '/')[2], '~') == 1
  {
    SplitCount(key, '/');
    if |Split(key, '/')| >= 3 {
      SplitCount(Split(key, '/')[2], '~');
    }
  }

  /** Wherever the upload key parses, the listing reads the same job id off it. */
  lemma ListingAgreesWithParse(key: string)
    requires ParseUploadKey(key).Ok?
    ensures ListingJobId(key) == Ok(ParseUploadKey(key).value.jobId)
  {
  }

  /** The job's local directory `./jobs/<job_id>`. */
  function JobDir(jobId: string): string
  {
    "./jobs/" + jobId
  }

  /** The local path `./jobs/<job_id>/<input_file_name>` the input is moved to. */
  function WorkingPath(jobId: string, fileName: string): string
  {
    JobDir(jobId) + "/" + fileName
  }

  /** `key.split("/")[-1]` */
  function LastSegment(s: string): string
  {
    var parts := Split(s, '/');
    parts[|parts| - 1]
  }

  /** `'/'.join(key.split("/")[:-1])`: the key with its last "/"-segment removed. */
  function KeyPrefix(key: string): string
  {
    var parts := Split(key, '/');
    Join(parts[..|parts| - 1], '/')
  }

  /** Python's `s[:-4]`: drops the last four characters, or everything when there are fewer. */
  function DropLast4(s: string): (r: string)
    ensures |s| >= 4 ==> s == r + s[|s| - 4..]
    ensures |s| < 4 ==> r == ""
  {
    if |s| >= 4 then s[..|s| - 4] else ""
  }

  /** `file_path.split('/')[-1][:-4]`: the worker's file name stem. */
  function WorkerFileName(filePath: string): string
  {
    DropLast4(LastSegment(filePath))
  }

  /** `f"{key_prefix}/{job_id}~{file_name}.annot.vcf"` */
  function ResultKey(keyPrefix: string, jobId: string, fileName: string): string
  {
    keyPrefix + "/" + jobId + "~" + fileName + ".annot.vcf"
  }

  /** `f"{key_prefix}/{job_id}~{file_name}.vcf.count.log"` */
  function LogKey(keyPrefix: string, jobId: string, fileName: string): string
  {
    keyPrefix + "/" + jobId + "~" + fileName + ".vcf.count.log"
  }

  /** The result key and the log key of one job never collide: they end in "f" and "g". */
  lemma ResultAndLogKeysDiffer(keyPrefix: string, jobId: string, fileName: string)
    ensures ResultKey(keyPrefix, jobId, fileName) != LogKey(keyPrefix, jobId, fileName)
  {
    var r := ResultKey(keyPrefix, jobId, fileName);
    var l := LogKey(keyPrefix, jobId, fileName);
    assert r[|r| - 1] == 'f';
    assert l[|l| - 1] == 'g';
  }

  /** `vcf_file_name.split('.')[0]` */
  function StemBeforeDot(fileName: string): string
  {
    Split(fileName, '.')[0]
  }

  /** The web layer's result key: `prefix + user_id + '/' + id + f'~{stem}.annot.vcf'`. */
  function DownloadKey(prefix: string, userId: string, id: string, vcfFileName: string): string
  {
    prefix + userId + "/" + id + "~" + StemBeforeDot(vcfFileName) + ".annot.vcf"
  }

  /** The web layer's log key: `prefix + user_id + '/' + id + f'~{stem}.vcf.count.log'`. */
  function WebLogKey(prefix: string, userId: string, id: string, vcfFileName: string): string
  {
    prefix + userId + "/" + id + "~" + StemBeforeDot(vcfFileName) + ".vcf.count.log"
  }

  lemma {:induction false} JoinSnoc(ps: seq<string>, x: string, c: char)
    requires |ps| >= 1
    ensures Join(ps + [x], c) == Join(ps, c) + [c] + x
  {
    if |ps| == 1 {
      Join2(ps[0], x, c);
      assert ps + [x] == [ps[0], x];
    } else {
      JoinSnoc(ps[1..], x, c);
      assert (ps + [x])[1..] == ps[1..] + [x];
    }
  }

  /**
   * The key prefix is the key with its last "/"-segment removed: putting the
   * segment back gives the key, and the prefix holds one "/" fewer.
   */
  lemma KeyPrefixAndLast(key: string)
    requires '/' in key
    ensures key == KeyPrefix(key) + "/" + LastSegment(key)
    ensures Count(KeyPrefix(key), '/') + 1 == Count(key, '/')
  {
    var parts := Split(key, '/');
    SplitCount(key, '/');
    assert Count(key, '/') >= 1 by {
      var i :| 0 <= i < |key| && key[i] == '/';
      CountPositive(key, '/', i);
    }
    assert parts == parts[..|parts| - 1] + [parts[|parts| - 1]];
    JoinSnoc(parts[..|parts| - 1], parts[|parts| - 1], '/');
    JoinSplit(key, '/');
    var front := parts[..|parts| - 1];
    assert forall i :: 0 <= i < |front| ==> '/' !in front[i];
    SplitJoin(front, '/');
    SplitCount(KeyPrefix(key), '/');
  }

  lemma {:induction false} CountPositive(s: string, c: char, i: nat)
    requires i < |s| && s[i] == c
    ensures Count(s, c) >= 1
  {
    if i > 0 {
      CountPositive(s[1..], c, i - 1);
    }
  }

  lemma NoSlashInVcf(stem: string)
    requires '/' !in stem && '~' !in stem
    ensures '/' !in stem + ".vcf" && '~' !in stem + ".vcf"
  {
    var s := stem + ".vcf";
    forall i | 0 <= i < |s| ensures s[i] != '/' && s[i] != '~' {
      if i < |stem| { assert s[i] == stem[i]; }
    }
  }

  /**
   * For an input file `stem + ".vcf"` with a dot-free stem, the web layer's
   * download key and log key are the keys the annotation run uploaded to.
   */
  lemma WebKeysMatchWorkerKeys(p: string, userId: string, jobId: string, stem: string)
    requires '/' !in p && '/' !in userId && '/' !in jobId && '/' !in stem
    requires '~' !in jobId && '~' !in stem && '.' !in stem
    ensures var key := UploadKey(p + "/", userId, jobId, stem + ".vcf");
            var path := WorkingPath(jobId, stem + ".vcf");
            && ResultKey(KeyPrefix(key), jobId, WorkerFileName(path))
               == DownloadKey(p + "/", userId, jobId, stem + ".vcf")
            && LogKey(KeyPrefix(key), jobId, WorkerFileName(path))
               == WebLogKey(p + "/", userId, jobId, stem + ".vcf")
  {
    var name := stem + ".vcf";
    NoSlashInVcf(stem);
    var key := UploadKey(p + "/", userId, jobId, name);
    var last := jobId + "~" + name;
    assert '/' !in last by {
      forall i | 0 <= i < |last| ensures last[i] != '/' {
        if i < |jobId| { assert last[i] == jobId[i]; }
        else if i > |jobId| { assert last[i] == name[i - |jobId| - 1]; }
      }
    }
    Join3(p, userId, last, '/');
    assert key == Join([p, userId, last], '/');
    SplitJoin([p, userId, last], '/');
    assert Split(key, '/')[..2] == [p, userId];
    Join2(p, userId, '/');
    assert KeyPrefix(key) == p + "/" + userId;

    WorkingPathLast(jobId, name);
    assert WorkerFileName(WorkingPath(jobId, name)) == stem;
    VcfStem(stem);
  }

  /** The last "/"-segment of the working path is the file name. */
  lemma WorkingPathLast(jobId: string, name: string)
    requires '/' !in jobId && '/' !in name
    ensures LastSegment(WorkingPath(jobId, name)) == name
  {
    var ps := [".", "jobs", jobId, name];
    assert WorkingPath(jobId, name) == Join(ps, '/') by {
      assert ps[1..] == ["jobs", jobId, name];
      Join3("jobs", jobId, name, '/');
    }
    SplitJoin(ps, '/');
  }

  /** The web layer's stem of a dot-free `stem + ".vcf"` is the stem. */
  lemma VcfStem(stem: string)
    requires '.' !in stem
    ensures StemBeforeDot(stem + ".vcf") == stem
  {
    SplitFreePrefix(stem, ".vcf", '.');
    assert Split(".vcf", '.')[0] == "";
  }

  /**
   * With a dot inside the stem the two layers disagree: for "a.b.vcf" the
   * run uploads under stem "a.b" while the web layer looks under stem "a".
   */
  lemma DottedStemKeysDisagree()
    ensures WorkerFileName(WorkingPath("j", "a.b.vcf")) == "a.b"
    ensures StemBeforeDot("a.b.vcf") == "a"
    ensures ResultKey("p/u", "j", WorkerFileName(WorkingPath("j", "a.b.vcf")))
            != DownloadKey("p/", "u", "j", "a.b.vcf")
  {
    DottedWorkerStem();
    DottedWebStem();
    assert |ResultKey("p/u", "j", "a.b")| == 19;
    assert |DownloadKey("p/", "u", "j", "a.b.vcf")| == 17;
  }

  /** The run's stem of "./jobs/j/a.b.vcf" keeps the inner dot. */
  lemma DottedWorkerStem()
    ensures WorkerFileName(WorkingPath("j", "a.b.vcf")) == "a.b"
  {
    WorkingPathLast("j", "a.b.vcf");
    assert "a.b.vcf"[..3] == "a.b";
  }

  /** The web layer's stem of "a.b.vcf" stops at the first dot. */
  lemma DottedWebStem()
    ensures StemBeforeDot("a.b.vcf") == "a"
  {
    assert "a.b.vcf" == "a" + ".b.vcf";
    SplitFreePrefix("a", ".b.vcf", '.');
    assert Split(".b.vcf", '.')[0] == "";
  }
}
