/**
 * The relational store behind the job lifecycle: the `SourcePage` (job) and
 * `TargetPage` (result) tables of app/internal/models.py, and a session that
 * stages changes and applies them all-or-nothing on commit.
 *
 * The store enforces primary keys (a job uid, a result id) but not the
 * foreign key from a result to its job, as SQLite does by default.
 */
module Store {
  import opened Wrappers

  /** UUIDs are opaque identifiers; only equality matters. */
  type Uuid = nat

  datatype Status = Pending | Complete | Failed

  /** A job row (`SourcePage`). */
  datatype SourcePage = SourcePage(uid: Uuid, url: string, status: Status)

  /** A result row (`TargetPage`). */
  datatype TargetPage = TargetPage(
    id: Uuid,
    jobUid: Uuid,
    targetUrl: string,
    fileType: string,
    relevanceScore: real,
    matchedKeywords: seq<string>)

  /** The committed contents of both tables. */
  datatype Tables = Tables(sources: map<Uuid, SourcePage>, targets: seq<TargetPage>)

  /** A change a session holds until it commits. */
  datatype Change =
    | AddSource(page: SourcePage)
    | SetStatus(uid: Uuid, status: Status)
    | AddTarget(row: TargetPage)

  /** Some stored result already uses `id`. */
  predicate IdTaken(targets: seq<TargetPage>, id: Uuid) {
    exists k :: 0 <= k < |targets| && targets[k].id == id
  }

  /** The ids of `rows` are pairwise distinct and unused in `targets`. */
  ghost predicate FreshIds(targets: seq<TargetPage>, rows: seq<TargetPage>) {
    && (forall i, j :: 0 <= i < j < |rows| ==> rows[i].id != rows[j].id)
    && (forall i :: 0 <= i < |rows| ==> !IdTaken(targets, rows[i].id))
  }

  /** Keys match uids, every result refers to a stored job, and result ids are unique. */
  ghost predicate Consistent(t: Tables) {
    && (forall u :: u in t.sources ==> t.sources[u].uid == u)
    && (forall i :: 0 <= i < |t.targets| ==> t.targets[i].jobUid in t.sources)
    && (forall i, j :: 0 <= i < j < |t.targets| ==> t.targets[i].id != t.targets[j].id)
  }

  /**
   * Applies one change: inserting a duplicate primary key, or updating a job
   * row that does not exist, fails.
   */
  function ApplyChange(t: Tables, c: Change): Option<Tables> {
    match c
    case AddSource(page) =>
      if page.uid in t.sources then None
      else Some(t.(sources := t.sources[page.uid := page]))
    case SetStatus(uid, status) =>
      if uid !in t.sources then None
      else Some(t.(sources := t.sources[uid := t.sources[uid].(status := status)]))
    case AddTarget(row) =>
      if IdTaken(t.targets, row.id) then None
      else Some(t.(targets := t.targets + [row]))
  }

  /** Applies the staged changes in order; any failing change fails the whole batch. */
  function ApplyAll(t: Tables, changes: seq<Change>): Option<Tables>
    decreases |changes|
  {
    if changes == [] then Some(t)
    else
      match ApplyChange(t, changes[0])
      case None => None
      case Some(t') => ApplyAll(t', changes[1..])
  }

  /** One insertion per result row. */
  function Inserts(rows: seq<TargetPage>): (r: seq<Change>)
    ensures |r| == |rows|
    ensures forall i :: 0 <= i < |rows| ==> r[i] == AddTarget(rows[i])
  {
    seq(|rows|, i requires 0 <= i < |rows| => AddTarget(rows[i]))
  }

  /**
   * A batch of result insertions succeeds exactly when the new ids are fresh,
   * and then appends the rows in order, leaving the job table alone.
   */
  lemma {:induction false} ApplyInserts(t: Tables, rows: seq<TargetPage>)
    ensures ApplyAll(t, Inserts(rows)).Some? <==> FreshIds(t.targets, rows)
    ensures ApplyAll(t, Inserts(rows)).Some? ==>
      ApplyAll(t, Inserts(rows)).value == t.(targets := t.targets + rows)
    decreases |rows|
  {
    if rows != [] {
      var row := rows[0];
      assert Inserts(rows)[0] == AddTarget(row);
      assert Inserts(rows)[1..] == Inserts(rows[1..]);
      if IdTaken(t.targets, row.id) {
        assert !FreshIds(t.targets, rows);
      } else {
        var t' := t.(targets := t.targets + [row]);
        ApplyInserts(t', rows[1..]);
        assert t'.targets + rows[1..] == t.targets + rows;
        FreshIdsCons(t.targets, rows);
      }
    }
  }

  /** Freshness of a batch, peeled one row at a time. */
  lemma FreshIdsCons(targets: seq<TargetPage>, rows: seq<TargetPage>)
    requires rows != [] && !IdTaken(targets, rows[0].id)
    ensures FreshIds(targets, rows) <==> FreshIds(targets + [rows[0]], rows[1..])
  {
    var rest := rows[1..];
    var ext := targets + [rows[0]];
    if FreshIds(targets, rows) {
      forall i | 0 <= i < |rest| ensures !IdTaken(ext, rest[i].id) {
        assert rest[i] == rows[i + 1];
        forall k | 0 <= k < |ext| ensures ext[k].id != rest[i].id {
          if k < |targets| {
            assert ext[k] == targets[k];
          } else {
            assert ext[k] == rows[0];
          }
        }
      }
    }
    if FreshIds(ext, rest) {
      forall i, j | 0 <= i < j < |rows| ensures rows[i].id != rows[j].id {
        if i == 0 {
          assert ext[|targets|] == rows[0];
          assert IdTaken(ext, rows[0].id);
          assert rest[j - 1] == rows[j];
        } else {
          assert rest[i - 1] == rows[i] && rest[j - 1] == rows[j];
        }
      }
      forall i | 0 <= i < |rows| ensures !IdTaken(targets, rows[i].id) {
        if i > 0 {
          assert rest[i - 1] == rows[i];
          forall k | 0 <= k < |targets| ensures targets[k].id != rows[i].id {
            assert ext[k] == targets[k];
          }
        }
      }
    }
  }

  /** The committed tables. */
  class Database {
    var tables: Tables

    constructor(tables: Tables)
      ensures this.tables == tables
    {
      this.tables := tables;
    }
  }

  /**
   * A unit of work over a database: `staged` holds the changes not yet
   * committed, `identity` the uids of the job rows loaded through this
   * session (assigning to such a row's status stages an update).
   */
  class Session {
    const db: Database
    var staged: seq<Change>
    var identity: set<Uuid>

    constructor(db: Database)
      ensures this.db == db
      ensures staged == [] && identity == {}
    {
      this.db := db;
      staged := [];
      identity := {};
    }

    /** `session.add(page)` for a new job row. */
    method AddJob(page: SourcePage)
      modifies this`staged
      ensures staged == old(staged) + [Change.AddSource(page)]
    {
      staged := staged + [Change.AddSource(page)];
    }

    /** `session.add(row)` for a new result row. */
    method AddResult(row: TargetPage)
      modifies this`staged
      ensures staged == old(staged) + [Change.AddTarget(row)]
    {
      staged := staged + [Change.AddTarget(row)];
    }

    /** `select(SourcePage).filter(uid == ...).first()`: the committed job row, now tracked. */
    method FindSource(uid: Uuid) returns (page: Option<SourcePage>)
      modifies this`identity
      ensures page == if uid in db.tables.sources then Some(db.tables.sources[uid]) else None
      ensures identity == if page.Some? then old(identity) + {uid} else old(identity)
    {
      if uid in db.tables.sources {
        page := Some(db.tables.sources[uid]);
        identity := identity + {uid};
      } else {
        page := None;
      }
    }

    /**
     * `page.status = status` on a loaded job row: tracked rows get an update
     * staged; a row this session does not track (never loaded, or detached
     * by `Close`) is changed only in memory.
     */
    method AssignStatus(uid: Uuid, status: Status)
      modifies this`staged
      ensures staged == if uid in identity then old(staged) + [SetStatus(uid, status)] else old(staged)
    {
      if uid in identity {
        staged := staged + [SetStatus(uid, status)];
      }
    }

    /**
     * `session.commit()`: the staged changes take effect together or not at
     * all. `available` is false when the database itself refuses the commit
     * (I/O error, lock); a constraint violation fails it as well.
     */
    method Commit(available: bool) returns (ok: bool)
      modifies this`staged, db`tables
      ensures ok == (available && ApplyAll(old(db.tables), old(staged)).Some?)
      ensures db.tables == if ok then ApplyAll(old(db.tables), old(staged)).value else old(db.tables)
      ensures staged == []
    {
      var after := ApplyAll(db.tables, staged);
      ok := available && after.Some?;
      if ok {
        db.tables := after.value;
      }
      staged := [];
    }

    /** Leaving `with Session(...)`: uncommitted changes are dropped and loaded rows detached. */
    method Close()
      modifies this`staged, this`identity
      ensures staged == [] && identity == {}
    {
      staged := [];
      identity := {};
    }
  }
}
