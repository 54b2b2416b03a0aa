/** Remainders of a character code and of its other letter case. */
module CaseShards {

  lemma RemOfSum(a: int, k: int, n: int)
    requires n > 0
    ensures (a + k * n) % n == a % n
  {
    var b := a + k * n;
    var d := b / n - a / n - k;
    assert d * n == a % n - b % n;
    assert d >= 1 ==> d * n >= n;
    assert d <= -1 ==> d * n <= -n;
  }

  lemma SameShardDivides(c: int, n: int)
    requires n > 0 && (c + 32) % n == c % n
    ensures 32 % n == 0
  {
    var d := (c + 32) / n - c / n;
    assert 32 == 0 + d * n;
    RemOfSum(0, d, n);
  }

  /** A letter and its other case fall in the same shard exactly when the shard count divides 32. */
  lemma CaseShardsIff(c: int, n: int)
    requires n > 0
    ensures (c + 32) % n == c % n <==> 32 % n == 0
  {
    if (c + 32) % n == c % n {
      SameShardDivides(c, n);
    } else if 32 % n == 0 {
      assert c + 32 == c + (32 / n) * n;
      RemOfSum(c, 32 / n, n);
    }
  }
}

/**
 The same hash in other letter cases: app/base/service/internal/data/filehelper.go chooses the shard by
 the first byte as it is written, while the database may compare hashes without regard to case.
 */
module FileSpelling {
  import opened CaseShards
  import opened FileDedup
  import opened FileDuplicates
  import opened FileIndex
  import opened FileRuns
  import opened Wrappers

  predicate IsLetter(b: byte) {
    65 <= b <= 90 || 97 <= b <= 122
  }

  function OtherCase(b: byte): byte
    requires IsLetter(b)
  {
    if b <= 90 then b + 32 else b - 32
  }

  /** The guard: every spelling of a hash that begins with `first` points to the same one of `n` shards. */
  predicate SpellingsShareShard(first: byte, n: int)
    requires n > 0
  {
    !IsLetter(first) || 32 % n == 0
  }

  lemma OtherCaseShard(b: byte, n: int)
    requires IsLetter(b) && n > 0
    ensures (OtherCase(b) as int) % n == (b as int) % n <==> 32 % n == 0
  {
    CaseShardsIff(if b <= 90 then b as int else OtherCase(b) as int, n);
  }

  /** A spelling of a hash: the same up to letter case. */
  predicate Spells(h: Hash, hash: Hash) {
    h != [] && Lower(h) == Lower(hash)
  }

  lemma FirstBytes(h: Hash, hash: Hash)
    requires Spells(h, hash)
    ensures hash != [] && (h[0] == hash[0] || (IsLetter(hash[0]) && h[0] == OtherCase(hash[0])))
  {
    assert Lower(h)[0] == Lower(hash)[0];
  }

  function Respelled(hash: Hash): Hash
    requires hash != [] && IsLetter(hash[0])
  {
    [OtherCase(hash[0])] + hash[1..]
  }

  lemma RespelledSpells(hash: Hash)
    requires hash != [] && IsLetter(hash[0])
    ensures Spells(Respelled(hash), hash)
  {
    assert forall i | 0 <= i < |hash| :: Lower(Respelled(hash))[i] == Lower(hash)[i];
  }

  /** The database compares hashes without regard to letter case. */
  ghost predicate CaseInsensitive(u: Setup) {
    forall h :: u.collate(h) == Lower(h)
  }

  lemma SpellingsShareShardIff(u: Setup, key: string, hash: Hash)
    requires ShardCount(u.cfg, key) > 0 && hash != []
    ensures (forall h | Spells(h, hash) :: HashShard(u.cfg, key, h) == HashShard(u.cfg, key, hash))
       <==> SpellingsShareShard(hash[0], ShardCount(u.cfg, key))
  {
    var n := ShardCount(u.cfg, key);
    if IsLetter(hash[0]) {
      OtherCaseShard(hash[0], n);
      RespelledSpells(hash);
      assert HashShard(u.cfg, key, Respelled(hash)) == (OtherCase(hash[0]) as int) % n;
    }
    if SpellingsShareShard(hash[0], n) {
      forall h | Spells(h, hash) ensures HashShard(u.cfg, key, h) == HashShard(u.cfg, key, hash) {
        FirstBytes(h, hash);
      }
    }
  }

  /**
   With a case-insensitive database, every spelling of an uploaded file's hash finds the upload if and
   only if the hash begins with no letter or the shard count divides 32.
   */
  lemma EverySpellingFoundIff(u: Setup, db: Db, key: string, id: int)
    requires Sharded(u.cfg) && Inv(u, db) && CaseInsensitive(u)
    requires IdRow(u, db, key, id).Some? && IdRow(u, db, key, id).value.uploaded
    ensures var hash := IdRow(u, db, key, id).value.hash;
            && hash != []
            && ((forall h | Spells(h, hash) :: Duplicate(u, db, key, h, id)) <==> SpellingsShareShard(hash[0], ShardCount(u.cfg, key)))
  {
    var hash := IdRow(u, db, key, id).value.hash;
    assert TwinInHash(u.cfg, db, key, id);
    SpellingsShareShardIff(u, key, hash);
    forall h | Spells(h, hash)
      ensures Duplicate(u, db, key, h, id) <==> HashShard(u.cfg, key, h) == HashShard(u.cfg, key, hash)
    {
      assert u.collate(h) == Lower(h) && u.collate(hash) == Lower(hash);
    }
  }

  /** No other file under the key has been uploaded with the hash in any spelling. */
  ghost predicate OnlyUpload(u: Setup, db: Db, key: string, id: int, hash: Hash)
    requires ShardCount(u.cfg, key) > 0
  {
    forall x :: IdRow(u, db, key, x).Some? && IdRow(u, db, key, x).value.uploaded && Lower(IdRow(u, db, key, x).value.hash) == Lower(hash)
      ==> x == id
  }

  /** For the only upload of a hash, that is exactly when a put answers every spelling with it. */
  lemma EverySpellingAnsweredIff(u: Setup, db: Db, f: File, id: int, nextId: int, env: Env, signFails: bool)
    requires Sharded(u.cfg) && Inv(u, db) && CaseInsensitive(u)
    requires var key := KeyOf(f.domain, f.biz);
             && IdRow(u, db, key, id).Some? && IdRow(u, db, key, id).value.uploaded
             && OnlyUpload(u, db, key, id, IdRow(u, db, key, id).value.hash)
             && forall h | Spells(h, IdRow(u, db, key, id).value.hash) :: HashTable(u.cfg, key, h) in db
    ensures var key := KeyOf(f.domain, f.biz);
            var hash := IdRow(u, db, key, id).value.hash;
            && hash != []
            && ((forall h | Spells(h, hash) :: Put(u, db, f.(hash := h), nextId, env, false, signFails).1 == Existing(id))
                <==> SpellingsShareShard(hash[0], ShardCount(u.cfg, key)))
  {
    var key := KeyOf(f.domain, f.biz);
    var hash := IdRow(u, db, key, id).value.hash;
    EverySpellingFoundIff(u, db, key, id);
    forall h | Spells(h, hash)
      ensures Put(u, db, f.(hash := h), nextId, env, false, signFails).1 == Existing(id) <==> Duplicate(u, db, key, h, id)
    {
      AnsweredIffDuplicate(u, db, f.(hash := h), id, nextId, env, signFails);
    }
  }

  lemma AnsweredIffDuplicate(u: Setup, db: Db, f: File, id: int, nextId: int, env: Env, signFails: bool)
    requires Sharded(u.cfg) && Inv(u, db) && CaseInsensitive(u) && f.hash != [] && TableNameByHash(u.cfg, f) in db
    requires OnlyUpload(u, db, KeyOf(f.domain, f.biz), id, f.hash)
    ensures Put(u, db, f, nextId, env, false, signFails).1 == Existing(id) <==> Duplicate(u, db, KeyOf(f.domain, f.biz), f.hash, id)
  {
    var key := KeyOf(f.domain, f.biz);
    PutFindsDuplicateIff(u, db, f, nextId, env, signFails);
    forall x | Duplicate(u, db, key, f.hash, x) ensures x == id {
      assert u.collate(f.hash) == Lower(f.hash);
    }
  }

  const NO_TROUBLE := Env(false, false, false, false, 0, 0)

  function PutOf(f: File, nextId: int): Request {
    PutRequest(f, nextId, NO_TROUBLE, false, false)
  }

  function ReportOf(f: File, id: int): Request {
    ReportRequest(f.(id := id), Some(f.hash), NO_TROUBLE, false, false)
  }

  lemma FirstPut(u: Setup, db: Db, f: File, id: int)
    requires Sharded(u.cfg) && Empty(db) && f.hash != [] && id != 0
    requires TableNameById(u.cfg, f.(id := id)) in db && TableNameByHash(u.cfg, f) in db
    ensures var (out, reply) := Serve(u, db, PutOf(f, id));
            && reply == Created(id) && out.Keys == db.Keys
            && Lookup(out, TableNameById(u.cfg, f.(id := id)), id) == Some(NewRow(f.(id := id, uploaded := false), 0))
            && (forall name, x | x != id :: Lookup(out, name, x).None?)
  {
    var stored := f.(id := id, uploaded := false);
    FirstFile(u.cfg, db, stored, NO_TROUBLE);
    forall name, x | x != id ensures Lookup(Transact(u.cfg, db, Create, stored, NO_TROUBLE).db, name, x).None? {
      OnlyTwoCells(u.cfg, db, Create, stored, NO_TROUBLE, name, x);
    }
  }

  lemma FirstReport(u: Setup, db: Db, f: File, id: int)
    requires Sharded(u.cfg) && f.hash != [] && id != 0
    requires TableNameById(u.cfg, f.(id := id)) in db && TableNameByHash(u.cfg, f) in db
    requires Lookup(db, TableNameById(u.cfg, f.(id := id)), id) == Some(NewRow(f.(id := id, uploaded := false), 0))
    requires forall name, x | x != id :: Lookup(db, name, x).None?
    ensures var (out, reply) := Serve(u, db, ReportOf(f, id));
            var r := IdRow(u, out, KeyOf(f.domain, f.biz), id);
            && reply == Reported && out.Keys == db.Keys
            && r.Some? && r.value.uploaded && r.value.hash == f.hash
            && (forall name, x | x != id :: Lookup(out, name, x).None?)
  {
    var updated := FileOf(NewRow(f.(id := id, uploaded := false), 0)).(uploaded := true);
    var out := Transact(u.cfg, db, Update, updated, NO_TROUBLE);
    assert out.ok && out.db.Keys == db.Keys;
    IdRowsAfter(u.cfg, db, Update, updated, NO_TROUBLE, KeyOf(f.domain, f.biz), id);
    forall name, x | x != id ensures Lookup(out.db, name, x).None? {
      OnlyTwoCells(u.cfg, db, Update, updated, NO_TROUBLE, name, x);
    }
  }

  /** A file put and reported on an empty system. */
  lemma FirstUpload(u: Setup, db: Db, f: File, id: int)
    requires Sharded(u.cfg) && Empty(db) && f.hash != [] && id != 0
    requires TableNameById(u.cfg, f.(id := id)) in db && TableNameByHash(u.cfg, f) in db
    ensures var out := ServeAll(u, db, [PutOf(f, id), ReportOf(f, id)]);
            var r := IdRow(u, out, KeyOf(f.domain, f.biz), id);
            && out.Keys == db.Keys && r.Some? && r.value.uploaded && r.value.hash == f.hash
            && (forall name, x | x != id :: Lookup(out, name, x).None?)
  {
    FirstPut(u, db, f, id);
    var db1 := Serve(u, db, PutOf(f, id)).0;
    FirstReport(u, db1, f, id);
    var requests := [PutOf(f, id), ReportOf(f, id)];
    assert requests[1..] == [ReportOf(f, id)] && [ReportOf(f, id)][1..] == [];
    assert ServeAll(u, db1, [ReportOf(f, id)]) == ServeAll(u, Serve(u, db1, ReportOf(f, id)).0, []);
  }

  /**
   With five shards, as the service is configured, and a case-insensitive database: after "a" has been
   uploaded as the hash of file 1, a put of "A" is not answered with it but stores a second file.
   */
  lemma OtherSpellingMissed() returns (u: Setup, db: Db, uploads: seq<Request>, put: Request)
    ensures u.cfg == map["file_campus_public" := 5] && CaseInsensitive(u) && Empty(db)
    ensures var key := "file_campus_public";
            var db' := ServeAll(u, db, uploads);
            var (last, reply) := Serve(u, db', put);
            && put.PutRequest? && KeyOf(put.file.domain, put.file.biz) == key
            && IdRow(u, db', key, 1).Some? && IdRow(u, db', key, 1).value.uploaded
            && Spells(put.file.hash, IdRow(u, db', key, 1).value.hash)
            && reply == Created(2) && IdRow(u, last, key, 2).Some?
  {
    var key := "file_campus_public";
    var cfg: Config := map[key := 5];
    u := Setup(cfg, (h: Hash) => Lower(h));
    var f := File(0, "campus", "public", [97], "", 0, false, 0);
    assert KeyOf("campus", "public") == key;
    db := map[IdTable(cfg, key, 1) := map[], IdTable(cfg, key, 2) := map[],
              HashTable(cfg, key, [97]) := map[], HashTable(cfg, key, [65]) := map[]];
    var g := f.(hash := [65]);
    uploads, put := [PutOf(f, 1), ReportOf(f, 1)], PutOf(g, 2);
    FirstUpload(u, db, f, 1);
    OtherShardMissed(u, db, ServeAll(u, db, uploads), uploads, f, g);
  }

  lemma OtherShardMissed(u: Setup, db: Db, db': Db, uploads: seq<Request>, f: File, g: File)
    requires Sharded(u.cfg) && CaseInsensitive(u) && Empty(db) && db' == ServeAll(u, db, uploads)
    requires g == f.(hash := [65]) && f.hash == [97] && !g.uploaded
    requires var key := KeyOf(f.domain, f.biz);
             && ShardCount(u.cfg, key) == 5
             && IdTable(u.cfg, key, 2) in db' && HashTable(u.cfg, key, [65]) in db'
             && IdRow(u, db', key, 1).Some? && IdRow(u, db', key, 1).value.hash == [97]
    requires forall name, x | x != 1 :: Lookup(db', name, x).None?
    ensures Spells(g.hash, f.hash)
    ensures var (last, reply) := Serve(u, db', PutOf(g, 2));
            reply == Created(2) && IdRow(u, last, KeyOf(f.domain, f.biz), 2).Some?
  {
    var key := KeyOf(f.domain, f.biz);
    assert Lower([65]) == Lower([97]);
    ReachableInv(u, db, uploads);
    assert HashShard(u.cfg, key, [97]) == 2 && HashShard(u.cfg, key, [65]) == 0;
    PutFindsDuplicateIff(u, db', g, 2, NO_TROUBLE, false);
    forall x ensures !Duplicate(u, db', key, [65], x) {
      assert x != 1 ==> IdRow(u, db', key, x).None?;
    }
    var stored := g.(id := 2);
    assert Lookup(db', TableNameById(u.cfg, stored), 2).None? && Lookup(db', TableNameByHash(u.cfg, stored), 2).None?;
    AddSucceedsIff(u.cfg, db', stored, NO_TROUBLE);
    AddedCells(u.cfg, db', stored, NO_TROUBLE);
  }
}
