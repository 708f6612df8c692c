/**
 * The scrape-and-store job (app/tasks.py): create the job row as PENDING,
 * run the crawl, then store every collected result and mark the job
 * COMPLETE in one commit; on any failure, mark the job FAILED.
 *
 * The crawl is a parameter (`run_spider` returns the collected items or
 * raises), and so are the ids `uuid.uuid4()` hands out and whether the
 * database accepts each commit.
 */
module Tasks {
  import opened Wrappers
  import opened Settings
  import opened Spider
  import opened Store

  /** `run_spider(url, keywords)`: the collected items, or `None` when the crawl raised. */
  type Crawl = (string, seq<string>) -> Option<seq<Item>>

  /** Whether the database accepts the job-creation commit and the results commit. */
  datatype Faults = Faults(jobCommitAvailable: bool, resultsCommitAvailable: bool)

  /** Where the `try` block raised. */
  datatype TaskError = JobCommitFailed | CrawlFailed | JobNotFound | ResultsCommitFailed

  /** `{"status": "success", "result_count": n}` or `{"status": "failed", "error": ...}`. */
  datatype TaskReturn = Success(resultCount: nat) | Failure(error: TaskError)

  /**
   * The `TargetPage` rows built for the crawl results, one per result in
   * order: the i-th takes the i-th fresh id, belongs to the job, and copies
   * the url, file type, score and keywords of its result. Nothing is
   * filtered out by score.
   */
  function ResultRows(jobUid: Uuid, results: seq<Item>, freshIds: nat -> Uuid): (rows: seq<TargetPage>)
    ensures |rows| == |results|
    ensures forall i :: 0 <= i < |rows| ==>
      && rows[i].id == freshIds(i)
      && rows[i].jobUid == jobUid
      && rows[i].targetUrl == results[i].url
      && rows[i].fileType == results[i].fileType
      && rows[i].relevanceScore == results[i].relevanceScore
      && rows[i].matchedKeywords == results[i].keywords
  {
    seq(|results|, i requires 0 <= i < |results| =>
      TargetPage(freshIds(i), jobUid, results[i].url, results[i].fileType, results[i].relevanceScore, results[i].keywords))
  }

  /** The tables after a job row is created as PENDING. */
  function WithJob(t: Tables, taskId: Uuid, url: string): Tables {
    t.(sources := t.sources[taskId := SourcePage(taskId, url, Pending)])
  }

  /** The tables with the status of an existing job row replaced. */
  function WithStatus(t: Tables, taskId: Uuid, status: Status): Tables
    requires taskId in t.sources
  {
    t.(sources := t.sources[taskId := t.sources[taskId].(status := status)])
  }

  /** Marking the job and appending its result rows keeps the tables consistent. */
  lemma StoredResultsConsistent(t: Tables, taskId: Uuid, status: Status, rows: seq<TargetPage>)
    requires Consistent(t) && taskId in t.sources
    requires FreshIds(t.targets, rows)
    requires forall i :: 0 <= i < |rows| ==> rows[i].jobUid == taskId
    ensures Consistent(WithStatus(t, taskId, status).(targets := t.targets + rows))
  {
    var t' := WithStatus(t, taskId, status).(targets := t.targets + rows);
    forall i, j | 0 <= i < j < |t'.targets| ensures t'.targets[i].id != t'.targets[j].id {
      if j >= |t.targets| && i < |t.targets| {
        assert t'.targets[i] == t.targets[i];
        assert t'.targets[j] == rows[j - |t.targets|];
        assert !IdTaken(t.targets, rows[j - |t.targets|].id);
      } else if i >= |t.targets| {
        assert t'.targets[i] == rows[i - |t.targets|] && t'.targets[j] == rows[j - |t.targets|];
      }
    }
  }

  /** Lines 22-28: commit a new PENDING job row in its own session. */
  method CreateJob(db: Database, taskId: Uuid, url: string, available: bool) returns (ok: bool)
    modifies db
    ensures ok == (available && taskId !in old(db.tables.sources))
    ensures db.tables == if ok then WithJob(old(db.tables), taskId, url) else old(db.tables)
  {
    var session := new Session(db);
    session.AddJob(SourcePage(taskId, url, Pending));
    ok := session.Commit(available);
    session.Close();
  }

  /**
   * Lines 35-52: load the job row (raising when it is missing), mark it
   * COMPLETE, stage one result row per crawl result and commit all of it at
   * once. Nothing is stored unless the whole batch is.
   */
  method StoreResults(db: Database, taskId: Uuid, results: seq<Item>, freshIds: nat -> Uuid, available: bool)
    returns (r: TaskReturn)
    modifies db
    ensures taskId !in old(db.tables.sources) ==> r == Failure(JobNotFound)
    ensures taskId in old(db.tables.sources) ==>
      (r.Success? <==> available && FreshIds(old(db.tables.targets), ResultRows(taskId, results, freshIds)))
    ensures r.Failure? ==> db.tables == old(db.tables)
    ensures r.Failure? ==> r.error == if taskId in old(db.tables.sources) then ResultsCommitFailed else JobNotFound
    ensures r.Success? ==>
      && taskId in old(db.tables.sources)
      && r.resultCount == |results|
      && db.tables == WithStatus(old(db.tables), taskId, Complete).(targets := old(db.tables.targets) + ResultRows(taskId, results, freshIds))
  {
    var session := new Session(db);
    var page := session.FindSource(taskId);
    if page.None? {
      session.Close();
      return Failure(JobNotFound);
    }
    session.AssignStatus(taskId, Complete);
    for i := 0 to |results|
      invariant session.db == db && db.tables == old(db.tables)
      invariant session.staged == [SetStatus(taskId, Complete)] + Inserts(ResultRows(taskId, results[..i], freshIds))
    {
      var row := TargetPage(freshIds(i), taskId, results[i].url, results[i].fileType, results[i].relevanceScore, results[i].keywords);
      session.AddResult(row);
      assert Inserts(ResultRows(taskId, results[..i + 1], freshIds))
        == Inserts(ResultRows(taskId, results[..i], freshIds)) + [AddTarget(row)];
    }
    assert results[..|results|] == results;
    var rows := ResultRows(taskId, results, freshIds);
    var t := db.tables;
    assert ([SetStatus(taskId, Complete)] + Inserts(rows))[1..] == Inserts(rows);
    ApplyInserts(WithStatus(t, taskId, Complete), rows);
    var ok := session.Commit(available);
    session.Close();
    if ok {
      r := Success(|results|);
    } else {
      r := Failure(ResultsCommitFailed);
    }
  }

  /** The `try` block, lines 20-54: create the job, crawl, store the results. */
  method RunJob(db: Database, taskId: Uuid, url: string, crawl: Crawl, freshIds: nat -> Uuid, faults: Faults)
    returns (r: TaskReturn)
    modifies db
    ensures var created := faults.jobCommitAvailable && taskId !in old(db.tables.sources);
      && (!created ==> r == Failure(JobCommitFailed) && db.tables == old(db.tables))
      && (created && crawl(url, DEFAULT_TARGET_KEYWORDS).None? ==>
            r == Failure(CrawlFailed) && db.tables == WithJob(old(db.tables), taskId, url))
      && (created && crawl(url, DEFAULT_TARGET_KEYWORDS).Some? ==>
            var results := crawl(url, DEFAULT_TARGET_KEYWORDS).value;
            var rows := ResultRows(taskId, results, freshIds);
            if faults.resultsCommitAvailable && FreshIds(old(db.tables.targets), rows) then
              && r == Success(|results|)
              && db.tables == Tables(old(db.tables.sources)[taskId := SourcePage(taskId, url, Complete)], old(db.tables.targets) + rows)
            else
              r == Failure(ResultsCommitFailed) && db.tables == WithJob(old(db.tables), taskId, url))
  {
    var created := CreateJob(db, taskId, url, faults.jobCommitAvailable);
    if !created {
      return Failure(JobCommitFailed);
    }
    var results := crawl(url, DEFAULT_TARGET_KEYWORDS);
    if results.None? {
      return Failure(CrawlFailed);
    }
    r := StoreResults(db, taskId, results.value, freshIds, faults.resultsCommitAvailable);
  }

  /** The `except` block as intended: a job row that exists is moved to FAILED. */
  method MarkFailed(db: Database, taskId: Uuid)
    modifies db
    ensures db.tables == if taskId in old(db.tables.sources) then WithStatus(old(db.tables), taskId, Failed) else old(db.tables)
  {
    var session := new Session(db);
    var page := session.FindSource(taskId);
    if page.Some? {
      session.AssignStatus(taskId, Failed);
      var ok := session.Commit(true);
    }
    session.Close();
  }

  /**
   * The `except` block as written, lines 58-62: the `with` block ends right
   * after the lookup, so the session is closed and the row detached before
   * its status is assigned; the following commit has nothing to write.
   */
  method MarkFailedAsWritten(db: Database, taskId: Uuid)
    modifies db
    ensures db.tables == old(db.tables)
  {
    var session := new Session(db);
    var page := session.FindSource(taskId);
    session.Close();
    if page.Some? {
      session.AssignStatus(taskId, Failed);
      var ok := session.Commit(true);
    }
  }

  /**
   * `scrape_and_store` with the failure handler as intended. The job ends
   * COMPLETE with exactly one stored row per crawl result, or FAILED with no
   * result rows; it never stays PENDING, and no other job row changes.
   */
  method ScrapeAndStore(db: Database, taskId: Uuid, url: string, crawl: Crawl, freshIds: nat -> Uuid, faults: Faults)
    returns (r: TaskReturn)
    modifies db
    ensures old(Consistent(db.tables)) ==> Consistent(db.tables)
    ensures r.Success? <==>
      && faults.jobCommitAvailable && taskId !in old(db.tables.sources)
      && crawl(url, DEFAULT_TARGET_KEYWORDS).Some?
      && faults.resultsCommitAvailable
      && FreshIds(old(db.tables.targets), ResultRows(taskId, crawl(url, DEFAULT_TARGET_KEYWORDS).value, freshIds))
    ensures r.Success? ==>
      var results := crawl(url, DEFAULT_TARGET_KEYWORDS).value;
      && r.resultCount == |results|
      && db.tables.sources == old(db.tables.sources)[taskId := SourcePage(taskId, url, Complete)]
      && db.tables.targets == old(db.tables.targets) + ResultRows(taskId, results, freshIds)
    ensures r.Failure? ==> db.tables.targets == old(db.tables.targets)
    ensures r.Failure? ==> taskId in db.tables.sources ==> db.tables.sources[taskId].status == Failed
    ensures r.Failure? ==>
      db.tables.sources ==
        if taskId in old(db.tables.sources) then old(db.tables.sources)[taskId := old(db.tables.sources)[taskId].(status := Failed)]
        else if faults.jobCommitAvailable then old(db.tables.sources)[taskId := SourcePage(taskId, url, Failed)]
        else old(db.tables.sources)
    ensures faults.jobCommitAvailable && taskId !in old(db.tables.sources) ==> taskId in db.tables.sources
    ensures taskId in db.tables.sources ==> db.tables.sources[taskId].status != Pending
    ensures forall u :: u != taskId ==> (u in db.tables.sources <==> u in old(db.tables.sources))
    ensures forall u :: u != taskId && u in old(db.tables.sources) ==> db.tables.sources[u] == old(db.tables.sources)[u]
  {
    ghost var t := db.tables;
    r := RunJob(db, taskId, url, crawl, freshIds, faults);
    if r.Failure? {
      MarkFailed(db, taskId);
    } else if Consistent(t) {
      var results := crawl(url, DEFAULT_TARGET_KEYWORDS).value;
      StoredResultsConsistent(WithJob(t, taskId, url), taskId, Complete, ResultRows(taskId, results, freshIds));
      assert WithStatus(WithJob(t, taskId, url), taskId, Complete).sources == t.sources[taskId := SourcePage(taskId, url, Complete)];
    }
  }

  /**
   * `scrape_and_store` exactly as written: when the job row was created and
   * a later step raised, the row is left PENDING.
   */
  method ScrapeAndStoreAsWritten(db: Database, taskId: Uuid, url: string, crawl: Crawl, freshIds: nat -> Uuid, faults: Faults)
    returns (r: TaskReturn)
    modifies db
    ensures r.Success? <==>
      && faults.jobCommitAvailable && taskId !in old(db.tables.sources)
      && crawl(url, DEFAULT_TARGET_KEYWORDS).Some?
      && faults.resultsCommitAvailable
      && FreshIds(old(db.tables.targets), ResultRows(taskId, crawl(url, DEFAULT_TARGET_KEYWORDS).value, freshIds))
    ensures r.Success? ==>
      var results := crawl(url, DEFAULT_TARGET_KEYWORDS).value;
      && r.resultCount == |results|
      && db.tables.sources == old(db.tables.sources)[taskId := SourcePage(taskId, url, Complete)]
      && db.tables.targets == old(db.tables.targets) + ResultRows(taskId, results, freshIds)
    ensures r.Failure? ==> db.tables.targets == old(db.tables.targets)
    ensures r.Failure? && faults.jobCommitAvailable && taskId !in old(db.tables.sources) ==>
      taskId in db.tables.sources && db.tables.sources[taskId].status == Pending
    ensures r.Failure? ==>
      db.tables ==
        if faults.jobCommitAvailable && taskId !in old(db.tables.sources) then WithJob(old(db.tables), taskId, url)
        else old(db.tables)
  {
    r := RunJob(db, taskId, url, crawl, freshIds, faults);
    if r.Failure? {
      MarkFailedAsWritten(db, taskId);
    }
  }

  /**
   * A crawl that raises leaves the job PENDING in the code as written, and
   * FAILED with the handler as intended. Returns the status each version
   * leaves behind for the same job on an empty database.
   */
  method CrawlFailureOutcome() returns (asWritten: Status, intended: Status)
    ensures asWritten == Pending
    ensures intended == Failed
  {
    var failing: Crawl := (url, keywords) => None;
    var ids := (i: nat) => i;
    var faults := Faults(true, true);
    var db1 := new Database(Tables(map[], []));
    var r1 := ScrapeAndStoreAsWritten(db1, 7, "https://city.gov", failing, ids, faults);
    asWritten := db1.tables.sources[7].status;
    var db2 := new Database(Tables(map[], []));
    var r2 := ScrapeAndStore(db2, 7, "https://city.gov", failing, ids, faults);
    intended := db2.tables.sources[7].status;
  }
}
