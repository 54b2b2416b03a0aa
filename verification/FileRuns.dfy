/** What any run of upload requests keeps: app/base/service/internal/biz/file.go over filehelper.go. */
module FileRuns {
  import opened FileDedup
  import opened FileIndex
  import opened Wrappers

  /** The row stored for an id under a key. */
  function IdRow(u: Setup, db: Db, key: string, id: int): Option<Row>
    requires ShardCount(u.cfg, key) > 0
  {
    Lookup(db, IdTable(u.cfg, key, id), id)
  }

  /** Every stored file is in the tables of its own domain and business. */
  ghost predicate Homed(u: Setup, db: Db)
    requires Sharded(u.cfg)
  {
    forall key, id :: IdRow(u, db, key, id).Some? ==>
      KeyOf(IdRow(u, db, key, id).value.domain, IdRow(u, db, key, id).value.biz) == key
  }

  ghost predicate Inv(u: Setup, db: Db)
    requires Sharded(u.cfg)
  {
    Agreement(u.cfg, db) && Homed(u, db)
  }

  /** What a request does to one stored row: at most mark it uploaded or deleted, or create it. */
  ghost predicate Evolves(u: Setup, q: Request, key: string, before: Option<Row>, after: Option<Row>) {
    match before
    case Some(r) =>
      && after.Some?
      && Same(after.value.(uploaded := r.uploaded), r)
      && (r.uploaded ==> after.value.uploaded)
      && (r.deleted ==> after.value.deleted)
      && (after.value.uploaded && !r.uploaded ==>
            && q.ReportRequest? && q.file.id == r.id && KeyOf(q.file.domain, q.file.biz) == key
            && q.etag.Some? && Matches(r.hash, q.etag.value))
    case None =>
      after.Some? ==> !after.value.uploaded && KeyOf(after.value.domain, after.value.biz) == key
  }

  lemma PutEvolves(u: Setup, db: Db, q: Request, key: string, id: int)
    requires Sharded(u.cfg) && q.PutRequest?
    ensures Evolves(u, q, key, IdRow(u, db, key, id), IdRow(u, Serve(u, db, q).0, key, id))
  {
    var f := q.file.(id := q.nextId, uploaded := false);
    var out := Transact(u.cfg, db, Create, f, q.env);
    if out.ok && Serve(u, db, q).0 == out.db {
      IdRowsAfter(u.cfg, db, Create, f, q.env, key, id);
      AddSucceedsIff(u.cfg, db, f, q.env);
    }
  }

  lemma ReportEvolves(u: Setup, db: Db, q: Request, key: string, id: int)
    requires Sharded(u.cfg) && Inv(u, db) && q.ReportRequest?
    ensures Evolves(u, q, key, IdRow(u, db, key, id), IdRow(u, Serve(u, db, q).0, key, id))
  {
    var found := IdRow(u, db, KeyOf(q.file.domain, q.file.biz), q.file.id);
    if found.Some? && Serve(u, db, q).0 != db {
      AcceptsIff(found.value.hash, q.etag.value);
      assert TwinInHash(u.cfg, db, KeyOf(q.file.domain, q.file.biz), q.file.id);
      IdRowsAfter(u.cfg, db, Update, FileOf(found.value).(uploaded := true), q.env, key, id);
    }
  }

  lemma RemoveEvolves(u: Setup, db: Db, q: Request, key: string, id: int)
    requires Sharded(u.cfg) && q.RemoveRequest?
    ensures Evolves(u, q, key, IdRow(u, db, key, id), IdRow(u, Serve(u, db, q).0, key, id))
    ensures Serve(u, db, q).1 == Removed && IdRow(u, db, key, id).Some? && id == q.file.id && key == KeyOf(q.file.domain, q.file.biz) ==>
              IdRow(u, Serve(u, db, q).0, key, id) == Some(IdRow(u, db, key, id).value.(deleted := true))
  {
    if Transact(u.cfg, db, Remove, q.file, q.env).ok {
      IdRowsAfter(u.cfg, db, Remove, q.file, q.env, key, id);
    }
  }

  lemma RequestEvolves(u: Setup, db: Db, q: Request, key: string, id: int)
    requires Sharded(u.cfg) && Inv(u, db)
    ensures Evolves(u, q, key, IdRow(u, db, key, id), IdRow(u, Serve(u, db, q).0, key, id))
  {
    match q
    case PutRequest(_, _, _, _, _) => PutEvolves(u, db, q, key, id);
    case ReportRequest(_, _, _, _, _) => ReportEvolves(u, db, q, key, id);
    case RemoveRequest(_, _) => RemoveEvolves(u, db, q, key, id);
  }

  lemma RequestKeepsAgreement(u: Setup, db: Db, q: Request)
    requires Sharded(u.cfg) && Inv(u, db)
    ensures Agreement(u.cfg, Serve(u, db, q).0)
  {
    match q
    case PutRequest(f, nextId, env, _, _) =>
      AddKeepsAgreement(u.cfg, db, f.(id := nextId, uploaded := false), env);
    case ReportRequest(f, etag, env, _, _) =>
      var k := KeyOf(f.domain, f.biz);
      var found := IdRow(u, db, k, f.id);
      if found.Some? {
        assert TwinInHash(u.cfg, db, k, f.id);
        ChangeKeepsAgreement(u.cfg, db, Update, FileOf(found.value).(uploaded := true), env);
      }
    case RemoveRequest(f, env) => ChangeKeepsAgreement(u.cfg, db, Remove, f, env);
  }

  lemma RequestKeepsInv(u: Setup, db: Db, q: Request)
    requires Sharded(u.cfg) && Inv(u, db)
    ensures Inv(u, Serve(u, db, q).0)
  {
    RequestKeepsAgreement(u, db, q);
    var db' := Serve(u, db, q).0;
    forall key, id | IdRow(u, db', key, id).Some?
      ensures KeyOf(IdRow(u, db', key, id).value.domain, IdRow(u, db', key, id).value.biz) == key
    {
      RequestEvolves(u, db, q, key, id);
    }
  }

  /**
   Over any run of requests: the shard families agree, a row keeps its file, an uploaded row stays
   uploaded, and a removed one stays removed.
   */
  lemma {:induction false} RunEvolves(u: Setup, db: Db, requests: seq<Request>, key: string, id: int)
    requires Sharded(u.cfg) && Inv(u, db)
    ensures var db' := ServeAll(u, db, requests);
            && Inv(u, db')
            && (IdRow(u, db, key, id).Some? ==>
                  var r := IdRow(u, db, key, id).value;
                  && IdRow(u, db', key, id).Some?
                  && Same(IdRow(u, db', key, id).value.(uploaded := r.uploaded), r)
                  && (r.uploaded ==> IdRow(u, db', key, id).value.uploaded)
                  && (r.deleted ==> IdRow(u, db', key, id).value.deleted))
    decreases |requests|
  {
    if requests != [] {
      RequestKeepsInv(u, db, requests[0]);
      RequestEvolves(u, db, requests[0], key, id);
      RunEvolves(u, Serve(u, db, requests[0]).0, requests[1..], key, id);
    }
  }

  /**
   Soundness: a row that became uploaded during a run did so by a ReportUploaded for that very file,
   when the stored object's hash matched the row's, letter case aside, or contained a '-'.
   */
  lemma {:induction false} UploadedWasChecked(u: Setup, db: Db, requests: seq<Request>, key: string, id: int) returns (n: nat)
    requires Sharded(u.cfg) && Inv(u, db)
    requires IdRow(u, db, key, id).Some? ==> !IdRow(u, db, key, id).value.uploaded
    requires var r := IdRow(u, ServeAll(u, db, requests), key, id); r.Some? && r.value.uploaded
    ensures n < |requests| && requests[n].ReportRequest?
    ensures requests[n].file.id == id && KeyOf(requests[n].file.domain, requests[n].file.biz) == key
    ensures requests[n].etag.Some?
    ensures Matches(IdRow(u, ServeAll(u, db, requests), key, id).value.hash, requests[n].etag.value)
    decreases |requests|
  {
    var db' := Serve(u, db, requests[0]).0;
    RequestKeepsInv(u, db, requests[0]);
    RequestEvolves(u, db, requests[0], key, id);
    var r' := IdRow(u, db', key, id);
    if r'.Some? && r'.value.uploaded {
      n := 0;
      RunEvolves(u, db', requests[1..], key, id);
      assert TwinInHash(u.cfg, db, key, id);
    } else {
      n := UploadedWasChecked(u, db', requests[1..], key, id);
      n := n + 1;
    }
  }

  lemma EmptyTablesInv(u: Setup, db: Db)
    requires Sharded(u.cfg) && Empty(db)
    ensures Inv(u, db)
  {
    EmptyTablesAgree(u.cfg, db);
  }

  /** So it is in every database the requests can make of one without files. */
  lemma ReachableInv(u: Setup, db: Db, requests: seq<Request>)
    requires Sharded(u.cfg) && Empty(db)
    ensures Inv(u, ServeAll(u, db, requests))
  {
    EmptyTablesInv(u, db);
    RunEvolves(u, db, requests, "", 0);
  }

  /** Every uploaded row of such a database was checked by a report for its file. */
  lemma UploadedWasReported(u: Setup, db: Db, requests: seq<Request>, key: string, id: int) returns (n: nat)
    requires Sharded(u.cfg) && Empty(db)
    requires var r := IdRow(u, ServeAll(u, db, requests), key, id); r.Some? && r.value.uploaded
    ensures n < |requests| && requests[n].ReportRequest?
    ensures requests[n].file.id == id && KeyOf(requests[n].file.domain, requests[n].file.biz) == key
    ensures requests[n].etag.Some?
    ensures Matches(IdRow(u, ServeAll(u, db, requests), key, id).value.hash, requests[n].etag.value)
  {
    EmptyTablesInv(u, db);
    n := UploadedWasChecked(u, db, requests, key, id);
  }

  /**
   What a report does, in full. It fails and changes nothing when the row cannot be read or when the
   object's hash cannot be had or does not match; it finds no file when there is no row; otherwise it
   succeeds, and the row is marked uploaded and changed in nothing else but its time of update, exactly
   when the database and the link to the object give no trouble.
   */
  lemma ReportRepliesIff(u: Setup, db: Db, f: File, etag: Option<Hash>, env: Env, readFails: bool, urlFails: bool)
    requires Sharded(u.cfg) && Inv(u, db)
    ensures var key := KeyOf(f.domain, f.biz);
            var row := IdRow(u, db, key, f.id);
            var (after, reply) := Report(u, db, f, etag, env, readFails, urlFails);
            if readFails || IdTable(u.cfg, key, f.id) !in db then reply == Failed && after == db
            else if row.None? then reply == NoSuchFile && after == db
            else if etag.None? || !Matches(row.value.hash, etag.value) then reply == Failed && after == db
            else
              && (reply == Reported <==> Smooth(env) && f.id != 0 && !urlFails)
              && (reply != Reported ==> reply == Failed)
              && (if Smooth(env) && f.id != 0 then IdRow(u, after, key, f.id) == Some(row.value.(uploaded := true, updatedAt := env.now1))
                  else after == db)
  {
    var key := KeyOf(f.domain, f.biz);
    var row := IdRow(u, db, key, f.id);
    assert TwinInHash(u.cfg, db, key, f.id);
    if row.Some? && etag.Some? {
      var marked := FileOf(row.value).(uploaded := true);
      AcceptsIff(row.value.hash, etag.value);
      ChangeSucceedsIff(u.cfg, db, Update, marked, env);
      if Transact(u.cfg, db, Update, marked, env).ok {
        IdRowsAfter(u.cfg, db, Update, marked, env, key, f.id);
      }
    }
  }
}
