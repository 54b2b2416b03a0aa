/** The smallest of a set of primary keys, which is what a query with `First` asks for. */
module PrimaryKeys {
  predicate Inhabited(s: set<int>) {
    exists x :: x in s
  }

  predicate IsLeast(m: int, s: set<int>) {
    m in s && forall x | x in s :: m <= x
  }

  lemma LeastOfTwo(y: int, m: int, s: set<int>)
    requires y in s && IsLeast(m, s - {y})
    ensures IsLeast(if y <= m then y else m, s)
  {
    forall x | x in s ensures (if y <= m then y else m) <= x {
      assert x == y || x in s - {y};
    }
  }

  lemma {:induction false} LeastExists(s: set<int>) returns (m: int)
    requires Inhabited(s)
    ensures IsLeast(m, s)
    decreases s
  {
    var y :| y in s;
    if Inhabited(s - {y}) {
      m := LeastExists(s - {y});
      LeastOfTwo(y, m, s);
      m := if y <= m then y else m;
    } else {
      m := y;
      forall x | x in s ensures x == y {
        assert x != y ==> x in s - {y};
      }
    }
  }

  function Least(s: set<int>): (m: int)
    requires Inhabited(s)
    ensures IsLeast(m, s)
  {
    assert exists m :: IsLeast(m, s) by {
      var m := LeastExists(s);
    }
    var m :| IsLeast(m, s);
    m
  }
}

/** app/base/service/internal/biz/file.go: upload requests, and the deduplication by hash they rely on. */
module FileDedup {
  import opened FileIndex
  import opened PrimaryKeys
  import opened Wrappers

  /** `collate` stands for the database's comparison of hashes: two are equal when it sends them to the same value. */
  datatype Setup = Setup(cfg: Config, collate: Hash -> Hash)

  function Lower(h: Hash): (r: Hash)
    ensures |r| == |h|
  {
    seq(|h|, i requires 0 <= i < |h| => if 65 <= h[i] <= 90 then h[i] + 32 else h[i])
  }

  /** The byte '-'. */
  const DASH: byte := 45

  /** `CheckHash`, or the exception for the ETag of a multipart upload, which contains a '-'. */
  predicate Accepts(stored: Hash, etag: Hash) {
    Lower(stored) == Lower(etag) || DASH in etag
  }

  /** The same byte, or the two cases of one ASCII letter. */
  predicate SameLetter(a: byte, b: byte) {
    a == b || (65 <= a <= 90 && b == a + 32) || (65 <= b <= 90 && a == b + 32)
  }

  /** What a reported object must show: a hash with a '-' in it, or the stored hash in some letter case. */
  predicate Matches(stored: Hash, etag: Hash) {
    || (exists i | 0 <= i < |etag| :: etag[i] == 45)
    || (|etag| == |stored| && forall i | 0 <= i < |etag| :: SameLetter(stored[i], etag[i]))
  }

  lemma AcceptsIff(stored: Hash, etag: Hash)
    ensures Accepts(stored, etag) <==> Matches(stored, etag)
  {
    var a, b := Lower(stored), Lower(etag);
    if a == b {
      forall i | 0 <= i < |etag| ensures SameLetter(stored[i], etag[i]) {
        assert a[i] == b[i];
      }
    } else if |etag| == |stored| && forall i | 0 <= i < |etag| :: SameLetter(stored[i], etag[i]) {
      assert forall i | 0 <= i < |a| :: a[i] == b[i];
    }
  }

  // ----- Reading a hash table -----

  function Matching(u: Setup, t: Table, hash: Hash): set<int> {
    set id | id in t && t[id].uploaded && u.collate(t[id].hash) == u.collate(hash)
  }

  /** `GetUploadedFileByHash`: the match with the smallest primary key. */
  function UploadedByHash(u: Setup, t: Table, hash: Hash): Option<Row> {
    var ids := Matching(u, t, hash);
    if Inhabited(ids) then Some(t[Least(ids)]) else None
  }

  // ----- The requests -----

  datatype Reply = Failed | Existing(id: int) | Created(id: int) | NoSuchFile | Reported | Removed

  /** `PreSignPut` and `PreSignSlicingPut`, as far as the database goes; an empty hash panics before any read. */
  function Put(u: Setup, db: Db, f: File, nextId: int, env: Env, readFails: bool, signFails: bool): (Db, Reply) {
    if f.hash == [] || readFails || TableNameByHash(u.cfg, f) !in db then (db, Failed)
    else
      match UploadedByHash(u, db[TableNameByHash(u.cfg, f)], f.hash)
      case Some(r) => (db, Existing(r.id))
      case None =>
        var out := Transact(u.cfg, db, Create, f.(id := nextId), env);
        (out.db, if out.ok && !signFails then Created(nextId) else Failed)
  }

  function FileOf(r: Row): File {
    File(r.id, r.domain, r.biz, r.hash, r.fileType, r.size, r.uploaded, r.createdAt)
  }

  /** `ReportUploaded`; `etag` is the hash of the stored object, None when it cannot be had. */
  function Report(u: Setup, db: Db, f: File, etag: Option<Hash>, env: Env, readFails: bool, urlFails: bool): (Db, Reply) {
    if readFails || TableNameById(u.cfg, f) !in db then (db, Failed)
    else
      match Lookup(db, TableNameById(u.cfg, f), f.id)
      case None => (db, NoSuchFile)
      case Some(r) =>
        if etag.None? || !Accepts(r.hash, etag.value) then (db, Failed)
        else
          var out := Transact(u.cfg, db, Update, FileOf(r).(uploaded := true), env);
          (out.db, if out.ok && !urlFails then Reported else Failed)
  }

  class FileUsecase {
    const u: Setup
    const helper: FileRepoHelper

    constructor (u: Setup, helper: FileRepoHelper)
      requires helper.cfg == u.cfg
      ensures this.u == u && this.helper == helper
    {
      this.u := u;
      this.helper := helper;
    }

    method CheckFileExisted(f: File, readFails: bool) returns (ok: bool, found: Option<Row>)
      requires f.hash != []
      ensures ok == (!readFails && TableNameByHash(u.cfg, f) in helper.db)
      ensures ok ==> found == UploadedByHash(u, helper.db[TableNameByHash(u.cfg, f)], f.hash)
    {
      var name := TableNameByHash(u.cfg, f);
      if readFails || name !in helper.db {
        return false, None;
      }
      return true, UploadedByHash(u, helper.db[name], f.hash);
    }

    method PreSignPut(f: File, nextId: int, env: Env, readFails: bool, signFails: bool) returns (reply: Reply)
      requires helper.cfg == u.cfg
      modifies helper
      ensures (helper.db, reply) == Put(u, old(helper.db), f, nextId, env, readFails, signFails)
    {
      if f.hash == [] {
        return Failed;
      }
      var ok, found := CheckFileExisted(f, readFails);
      if !ok {
        return Failed;
      }
      if found.Some? {
        return Existing(found.value.id);
      }
      var added := helper.AddFile(f.(id := nextId), env);
      if !added || signFails {
        return Failed;
      }
      return Created(nextId);
    }

    method ReportUploaded(f: File, etag: Option<Hash>, env: Env, readFails: bool, urlFails: bool) returns (reply: Reply)
      requires helper.cfg == u.cfg
      modifies helper
      ensures (helper.db, reply) == Report(u, old(helper.db), f, etag, env, readFails, urlFails)
    {
      var name := TableNameById(u.cfg, f);
      if readFails || name !in helper.db {
        return Failed;
      }
      if f.id !in helper.db[name] {
        return NoSuchFile;
      }
      var retFile := FileOf(helper.db[name][f.id]);
      if etag.None? {
        return Failed;
      }
      var equals := Lower(retFile.hash) == Lower(etag.value);
      if !equals && DASH !in etag.value {
        return Failed;
      }
      retFile := retFile.(uploaded := true);
      var updated := helper.UpdateFile(retFile, env);
      if !updated || urlFails {
        return Failed;
      }
      return Reported;
    }
  }

  // ----- Runs of requests -----

  datatype Request =
    | PutRequest(file: File, nextId: int, env: Env, readFails: bool, signFails: bool)
    | ReportRequest(file: File, etag: Option<Hash>, env: Env, readFails: bool, urlFails: bool)
    | RemoveRequest(file: File, env: Env)

  /** The service builds the file of a request itself, and never marks it uploaded. */
  function Serve(u: Setup, db: Db, q: Request): (Db, Reply) {
    match q
    case PutRequest(f, nextId, env, readFails, signFails) =>
      Put(u, db, f.(uploaded := false), nextId, env, readFails, signFails)
    case ReportRequest(f, etag, env, readFails, urlFails) => Report(u, db, f, etag, env, readFails, urlFails)
    case RemoveRequest(f, env) =>
      var out := Transact(u.cfg, db, Remove, f, env);
      (out.db, if out.ok then Removed else Failed)
  }

  function ServeAll(u: Setup, db: Db, requests: seq<Request>): Db
    decreases |requests|
  {
    if requests == [] then db
    else
      var later := requests[1..];
      ServeAll(u, Serve(u, db, requests[0]).0, later)
  }
}
