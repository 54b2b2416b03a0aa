/** Deduplication by hash, exact in one request and complete over runs: app/base/service/internal/biz/file.go. */
module FileDuplicates {
  import opened FileDedup
  import opened FileIndex
  import opened FileRuns
  import opened PrimaryKeys
  import opened Wrappers

  /** An uploaded file under `key` whose hash equals `hash` for the database and points to the same shard. */
  predicate Duplicate(u: Setup, db: Db, key: string, hash: Hash, id: int)
    requires ShardCount(u.cfg, key) > 0 && hash != []
  {
    var r := IdRow(u, db, key, id);
    && r.Some? && r.value.uploaded && u.collate(r.value.hash) == u.collate(hash)
    && r.value.hash != [] && HashShard(u.cfg, key, r.value.hash) == HashShard(u.cfg, key, hash)
  }

  /** What a match in a hash table is: a duplicate in the id tables. */
  lemma MatchIffDuplicate(u: Setup, db: Db, key: string, hash: Hash, id: int)
    requires Sharded(u.cfg) && Inv(u, db) && hash != []
    requires HashTable(u.cfg, key, hash) in db
    ensures id in Matching(u, db[HashTable(u.cfg, key, hash)], hash) <==> Duplicate(u, db, key, hash, id)
  {
    assert TwinInId(u.cfg, db, key, hash, id);
    assert TwinInHash(u.cfg, db, key, id);
  }

  /**
   Deduplication is exact: a readable put answers with an existing file, and changes nothing, exactly
   when a duplicate is stored; the file it names is one.
   */
  lemma PutFindsDuplicateIff(u: Setup, db: Db, f: File, nextId: int, env: Env, signFails: bool)
    requires Sharded(u.cfg) && Inv(u, db) && f.hash != [] && TableNameByHash(u.cfg, f) in db
    ensures var key := KeyOf(f.domain, f.biz);
            var (db', reply) := Put(u, db, f, nextId, env, false, signFails);
            && (reply.Existing? <==> exists id :: Duplicate(u, db, key, f.hash, id))
            && (reply.Existing? ==> db' == db && Duplicate(u, db, key, f.hash, reply.id))
            && (reply.Existing? ==> forall id | Duplicate(u, db, key, f.hash, id) :: reply.id <= id)
  {
    var key := KeyOf(f.domain, f.biz);
    var t := db[TableNameByHash(u.cfg, f)];
    var ids := Matching(u, t, f.hash);
    if Inhabited(ids) {
      var id := Least(ids);
      MatchIffDuplicate(u, db, key, f.hash, id);
      assert TwinInId(u.cfg, db, key, f.hash, id);
      assert TwinInHash(u.cfg, db, key, id);
      forall other | Duplicate(u, db, key, f.hash, other) ensures id <= other {
        MatchIffDuplicate(u, db, key, f.hash, other);
      }
    } else {
      forall id ensures !Duplicate(u, db, key, f.hash, id) {
        MatchIffDuplicate(u, db, key, f.hash, id);
      }
    }
  }

  /** The row a put stores: the file as given under its new id, not deleted, created and updated at one time. */
  function PutRow(f: File, id: int, time: int): Row {
    Row(id, f.domain, f.biz, f.hash, f.fileType, f.size, f.uploaded, false, time, time)
  }

  /**
   What a put does when it finds no duplicate. It fails and changes nothing when the hash table cannot be
   read; otherwise the file is stored in both its tables exactly when the id is new and the database
   gives no trouble, and the put answers with its id exactly when in addition the link can be had.
   */
  lemma PutCreatesIff(u: Setup, db: Db, f: File, nextId: int, env: Env, readFails: bool, signFails: bool)
    requires Sharded(u.cfg) && Inv(u, db)
    requires f.hash != [] ==> forall id :: !Duplicate(u, db, KeyOf(f.domain, f.biz), f.hash, id)
    ensures var key := KeyOf(f.domain, f.biz);
            var (after, reply) := Put(u, db, f, nextId, env, readFails, signFails);
            if f.hash == [] || readFails || HashTable(u.cfg, key, f.hash) !in db then reply == Failed && after == db
            else
              var idTable, hashTable := IdTable(u.cfg, key, nextId), HashTable(u.cfg, key, f.hash);
              var stores := && nextId != 0 && Smooth(env) && idTable in db
                            && nextId !in db[idTable] && nextId !in db[hashTable];
              && (reply == Created(nextId) <==> stores && !signFails)
              && (reply != Created(nextId) ==> reply == Failed)
              && (if stores then
                    && Lookup(after, idTable, nextId) == Some(PutRow(f, nextId, env.now1))
                    && Lookup(after, hashTable, nextId) == Some(PutRow(f, nextId, env.now2))
                  else after == db)
  {
    if f.hash != [] && TableNameByHash(u.cfg, f) in db {
      PutFindsDuplicateIff(u, db, f, nextId, env, signFails);
      var g := f.(id := nextId);
      AddSucceedsIff(u.cfg, db, g, env);
      if Transact(u.cfg, db, Create, g, env).ok {
        AddedCells(u.cfg, db, g, env);
      }
    }
  }

  /**
   Completeness over runs: once ReportUploaded has succeeded for a stored file, whatever requests
   follow, a readable put for the same key and hash answers with an uploaded file of that hash and
   creates no row.
   */
  lemma ReportedIsDeduplicated(u: Setup, db: Db, report: Request, later: seq<Request>, put: Request)
    requires Sharded(u.cfg) && Inv(u, db)
    requires report.ReportRequest? && Serve(u, db, report).1 == Reported
    requires var key := KeyOf(report.file.domain, report.file.biz);
             && put.PutRequest? && !put.readFails
             && KeyOf(put.file.domain, put.file.biz) == key
             && IdRow(u, db, key, report.file.id).Some?
             && put.file.hash == IdRow(u, db, key, report.file.id).value.hash
    ensures var db' := ServeAll(u, Serve(u, db, report).0, later);
            var key := KeyOf(report.file.domain, report.file.biz);
            var (after, reply) := Serve(u, db', put);
            && reply.Existing? && after == db'
            && put.file.hash != [] && Duplicate(u, db', key, put.file.hash, reply.id)
  {
    var key, id := KeyOf(report.file.domain, report.file.biz), report.file.id;
    var r := IdRow(u, db, key, id).value;
    var db1 := Serve(u, db, report).0;
    assert TwinInHash(u.cfg, db, key, id);
    var f := FileOf(r).(uploaded := true);
    assert KeyOf(f.domain, f.biz) == key;
    ChangedCells(u.cfg, db, Update, f, report.env);
    assert IdRow(u, db1, key, id).Some? && IdRow(u, db1, key, id).value.uploaded;
    RequestKeepsInv(u, db, report);
    RunEvolves(u, db1, later, key, id);
    var db' := ServeAll(u, db1, later);
    assert TwinInHash(u.cfg, db', key, id);
    assert Duplicate(u, db', key, put.file.hash, id);
    PutFindsDuplicateIff(u, db', put.file, put.nextId, put.env, put.signFails);
  }

  // ----- Removed files -----

  lemma {:induction false} ServeAppend(u: Setup, db: Db, a: seq<Request>, b: seq<Request>)
    ensures ServeAll(u, db, a + b) == ServeAll(u, ServeAll(u, db, a), b)
    decreases |a|
  {
    if a == [] {
      assert a + b == b;
    } else {
      assert (a + b)[1..] == a[1..] + b;
      ServeAppend(u, Serve(u, db, a[0]).0, a[1..], b);
    }
  }

  /**
   Removing a file does not take it out of deduplication: although the row is marked, a later put of the
   hash is answered with an existing file, and with this one if it is the only upload of the hash.
   */
  lemma RemovedStillDeduplicates(u: Setup, db: Db, report: Request, before: seq<Request>, removal: Request, after: seq<Request>, put: Request)
    requires Sharded(u.cfg) && Inv(u, db)
    requires report.ReportRequest? && Serve(u, db, report).1 == Reported
    requires var key := KeyOf(report.file.domain, report.file.biz);
             && put.PutRequest? && !put.readFails
             && KeyOf(put.file.domain, put.file.biz) == key
             && IdRow(u, db, key, report.file.id).Some?
             && put.file.hash == IdRow(u, db, key, report.file.id).value.hash
             && removal.RemoveRequest? && removal.file.id == report.file.id
             && KeyOf(removal.file.domain, removal.file.biz) == key
             && Serve(u, ServeAll(u, Serve(u, db, report).0, before), removal).1 == Removed
    ensures var key, id := KeyOf(report.file.domain, report.file.biz), report.file.id;
            var db' := ServeAll(u, Serve(u, db, report).0, before + [removal] + after);
            var (last, reply) := Serve(u, db', put);
            && IdRow(u, db', key, id).Some? && IdRow(u, db', key, id).value.deleted
            && reply.Existing? && last == db' && put.file.hash != []
            && ((forall x :: Duplicate(u, db', key, put.file.hash, x) ==> x == id) ==> reply == Existing(id))
  {
    var key, id := KeyOf(report.file.domain, report.file.biz), report.file.id;
    var db1 := Serve(u, db, report).0;
    var db2 := ServeAll(u, db1, before);
    var db3 := Serve(u, db2, removal).0;
    var later := before + [removal] + after;
    assert [removal][1..] == [];
    assert ServeAll(u, db2, [removal]) == ServeAll(u, db3, []);
    ServeAppend(u, db1, before, [removal]);
    ServeAppend(u, db1, before + [removal], after);
    ReportedIsDeduplicated(u, db, report, later, put);
    RequestKeepsInv(u, db, report);
    RequestEvolves(u, db, report, key, id);
    RunEvolves(u, db1, before, key, id);
    RemoveEvolves(u, db2, removal, key, id);
    RequestKeepsInv(u, db2, removal);
    RunEvolves(u, db3, after, key, id);
  }
}
