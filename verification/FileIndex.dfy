/**
 app/base/service/internal/data/filehelper.go and file.go: every file has a row in a table chosen by
 its id and a row in a table chosen by its hash, written in one transaction.
 */
module FileIndex {
  import opened Decimal
  import opened Wrappers

  newtype byte = b: int | 0 <= b < 256

  /** A hash as the bytes of its Go string. */
  type Hash = seq<byte>

  /** `db_sharding_config`: shard counts by key; a key without an entry has one shard. */
  type Config = map<string, int>

  datatype File = File(
    id: int, domain: string, biz: string, hash: Hash, fileType: string, size: int, uploaded: bool, createdAt: int)

  datatype Row = Row(
    id: int, domain: string, biz: string, hash: Hash, fileType: string, size: int, uploaded: bool, deleted: bool,
    createdAt: int, updatedAt: int)

  type Table = map<int, Row>

  /** The tables that exist, by name; each has its id as primary key. */
  type Db = map<string, Table>

  // ----- Table names -----

  /** `file_<domain>_<biz>`, both the configuration key and the start of the table names. */
  function KeyOf(domain: string, biz: string): string {
    "file_" + domain + "_" + biz
  }

  function ShardCount(cfg: Config, key: string): int {
    if key in cfg then cfg[key] else 1
  }

  /** Go's `%`, which takes the sign of the dividend. */
  function GoRem(a: int, b: int): int
    requires b > 0
  {
    if a >= 0 then a % b else -((-a) % b)
  }

  function IdTable(cfg: Config, key: string, id: int): string
    requires ShardCount(cfg, key) > 0
  {
    key + "_id_" + OfInt(GoRem(id, ShardCount(cfg, key)))
  }

  function HashShard(cfg: Config, key: string, hash: Hash): int
    requires ShardCount(cfg, key) > 0 && hash != []
  {
    (hash[0] as int) % ShardCount(cfg, key)
  }

  function HashTable(cfg: Config, key: string, hash: Hash): string
    requires ShardCount(cfg, key) > 0 && hash != []
  {
    key + "_hash_" + OfInt(HashShard(cfg, key, hash))
  }

  /** `GetTableNameById`, with the name used when the shard count is not positive. */
  function TableNameById(cfg: Config, f: File): string {
    if ShardCount(cfg, KeyOf(f.domain, f.biz)) > 0 then IdTable(cfg, KeyOf(f.domain, f.biz), f.id)
    else f.domain + "_" + f.biz
  }

  /** `GetTableNameByHash`; Go panics on an empty hash. */
  function TableNameByHash(cfg: Config, f: File): string
    requires f.hash != []
  {
    if ShardCount(cfg, KeyOf(f.domain, f.biz)) > 0 then HashTable(cfg, KeyOf(f.domain, f.biz), f.hash)
    else f.domain + "_" + f.biz
  }

  /** All shard counts are positive. */
  ghost predicate Sharded(cfg: Config) {
    forall k | k in cfg :: cfg[k] > 0
  }

  lemma NameParts(a: string, kindA: string, m: int, b: string, kindB: string, n: int)
    requires a + "_" + kindA + "_" + OfInt(m) == b + "_" + kindB + "_" + OfInt(n)
    requires Free(kindA, '_') && Free(kindB, '_')
    ensures a == b && kindA == kindB && m == n
  {
    PrintedFree(m, '_');
    PrintedFree(n, '_');
    LastSeparator(a + "_" + kindA, OfInt(m), b + "_" + kindB, OfInt(n), '_');
    LastSeparator(a, kindA, b, kindB, '_');
    OfIntInjective(m, n);
  }

  lemma OwnNamesApart(cfg: Config, key: string, id: int, hash: Hash)
    requires ShardCount(cfg, key) > 0 && hash != []
    ensures IdTable(cfg, key, id) != HashTable(cfg, key, hash)
  {
    assert key + "_id_" == key + "_" + "id" + "_" && key + "_hash_" == key + "_" + "hash" + "_";
    if IdTable(cfg, key, id) == HashTable(cfg, key, hash) {
      NameParts(key, "id", GoRem(id, ShardCount(cfg, key)), key, "hash", HashShard(cfg, key, hash));
    }
  }

  /** Table names are read back uniquely: no id table is a hash table, and a name gives its key and shard. */
  lemma NamesApart(cfg: Config)
    requires Sharded(cfg)
    ensures forall k, i, k', h | h != [] :: IdTable(cfg, k, i) != HashTable(cfg, k', h)
    ensures forall k, i, k', i' :: IdTable(cfg, k, i) == IdTable(cfg, k', i') ==> k == k'
    ensures forall k, h, k', h' | h != [] && h' != [] ::
              HashTable(cfg, k, h) == HashTable(cfg, k', h') ==> k == k' && HashShard(cfg, k, h) == HashShard(cfg, k', h')
  {
    forall k, i, k', h | h != [] && IdTable(cfg, k, i) == HashTable(cfg, k', h) ensures false {
      assert k + "_id_" == k + "_" + "id" + "_" && k' + "_hash_" == k' + "_" + "hash" + "_";
      NameParts(k, "id", GoRem(i, ShardCount(cfg, k)), k', "hash", HashShard(cfg, k', h));
    }
    forall k, i, k', i' | IdTable(cfg, k, i) == IdTable(cfg, k', i') ensures k == k' {
      assert k + "_id_" == k + "_" + "id" + "_" && k' + "_id_" == k' + "_" + "id" + "_";
      NameParts(k, "id", GoRem(i, ShardCount(cfg, k)), k', "id", GoRem(i', ShardCount(cfg, k')));
    }
    forall k, h, k', h' | h != [] && h' != [] && HashTable(cfg, k, h) == HashTable(cfg, k', h')
      ensures k == k' && HashShard(cfg, k, h) == HashShard(cfg, k', h')
    {
      assert k + "_hash_" == k + "_" + "hash" + "_" && k' + "_hash_" == k' + "_" + "hash" + "_";
      NameParts(k, "hash", HashShard(cfg, k, h), k', "hash", HashShard(cfg, k', h'));
    }
  }

  /** Go's remainder is smaller than the divisor, has the sign of the dividend, and differs from it by a multiple. */
  lemma GoRemExact(a: int, b: int)
    requires b > 0
    ensures var r := GoRem(a, b);
            -b < r < b && (a >= 0 ==> r >= 0) && (a <= 0 ==> r <= 0) && (a - r) % b == 0
  {
    var c := if a >= 0 then a else -a;
    var q := c / b;
    assert c == q * b + c % b;
    MultipleOf(q, b);
    MultipleOf(-q, b);
    assert a - GoRem(a, b) == if a >= 0 then q * b else -q * b;
  }

  lemma MultipleOf(q: int, b: int)
    requires b > 0
    ensures (q * b) % b == 0
  {
    var d := (q * b) / b - q;
    assert d * b == -((q * b) % b);
    assert d >= 1 ==> d * b >= b;
    assert d <= -1 ==> d * b <= -b;
  }

  /** Two ids share a table exactly when the keys are equal and so are the remainders. */
  lemma IdTablesIff(cfg: Config, k: string, i: int, k': string, j: int)
    requires ShardCount(cfg, k) > 0 && ShardCount(cfg, k') > 0
    ensures IdTable(cfg, k, i) == IdTable(cfg, k', j) <==> k == k' && GoRem(i, ShardCount(cfg, k)) == GoRem(j, ShardCount(cfg, k'))
  {
    if IdTable(cfg, k, i) == IdTable(cfg, k', j) {
      assert k + "_id_" == k + "_" + "id" + "_" && k' + "_id_" == k' + "_" + "id" + "_";
      NameParts(k, "id", GoRem(i, ShardCount(cfg, k)), k', "id", GoRem(j, ShardCount(cfg, k')));
    }
  }

  /** And two hashes exactly when the keys are equal and so are the remainders of the first bytes. */
  lemma HashTablesIff(cfg: Config, k: string, h: Hash, k': string, h': Hash)
    requires ShardCount(cfg, k) > 0 && ShardCount(cfg, k') > 0 && h != [] && h' != []
    ensures HashTable(cfg, k, h) == HashTable(cfg, k', h')
       <==> k == k' && (h[0] as int) % ShardCount(cfg, k) == (h'[0] as int) % ShardCount(cfg, k')
  {
    if HashTable(cfg, k, h) == HashTable(cfg, k', h') {
      assert k + "_hash_" == k + "_" + "hash" + "_" && k' + "_hash_" == k' + "_" + "hash" + "_";
      NameParts(k, "hash", HashShard(cfg, k, h), k', "hash", HashShard(cfg, k', h'));
    }
  }

  /** A key without a configured count has one table of each kind. */
  lemma UnconfiguredIsWhole(cfg: Config, key: string, id: int, hash: Hash)
    requires key !in cfg && hash != []
    ensures IdTable(cfg, key, id) == key + "_id_0" && HashTable(cfg, key, hash) == key + "_hash_0"
  {
    assert id % 1 == 0 && (-id) % 1 == 0 && (hash[0] as int) % 1 == 0;
    assert OfInt(0) == "0";
  }

  /** A key tells the domain and the business apart when the domains hold no underscore. */
  lemma KeysApart(d: string, b: string, d': string, b': string)
    requires Free(d, '_') && Free(d', '_')
    ensures KeyOf(d, b) == KeyOf(d', b') <==> d == d' && b == b'
  {
    if KeyOf(d, b) == KeyOf(d', b') {
      assert KeyOf(d, b) == "file_" + (d + "_" + b) && KeyOf(d', b') == "file_" + (d' + "_" + b');
      assert KeyOf(d, b)[5..] == d + "_" + b && KeyOf(d', b')[5..] == d' + "_" + b';
      FirstSeparator(d, b, d', b', '_');
    }
  }

  /** Otherwise it need not. */
  lemma KeysMeet()
    ensures KeyOf("a", "b_c") == KeyOf("a_b", "c")
  {
    assert KeyOf("a", "b_c") == "file_a_b_c" == KeyOf("a_b", "c");
  }

  // ----- One statement on one table -----

  datatype Op = Create | Update | Remove

  function NewRow(f: File, now: int): Row {
    Row(f.id, f.domain, f.biz, f.hash, f.fileType, f.size, f.uploaded, false, now, now)
  }

  /** gorm's `Updates` with a struct writes the fields that are not zero values. */
  function Merge(r: Row, f: File, now: int): Row {
    r.(domain := if f.domain != "" then f.domain else r.domain,
       biz := if f.biz != "" then f.biz else r.biz,
       hash := if f.hash != [] then f.hash else r.hash,
       fileType := if f.fileType != "" then f.fileType else r.fileType,
       size := if f.size != 0 then f.size else r.size,
       uploaded := if f.uploaded then true else r.uploaded,
       createdAt := if f.createdAt != 0 then f.createdAt else r.createdAt,
       updatedAt := now)
  }

  /** `CreateFile`, `UpdateFile` and `DeleteFile` on one table; None is an error of the database. */
  function Statement(db: Db, op: Op, name: string, f: File, now: int): Option<Db> {
    if name !in db then None
    else
      match op
      case Create => if f.id in db[name] then None else Some(db[name := db[name][f.id := NewRow(f, now)]])
      case Update =>
        if f.id in db[name] then Some(db[name := db[name][f.id := Merge(db[name][f.id], f, now)]]) else Some(db)
      case Remove =>
        if f.id in db[name] then Some(db[name := db[name][f.id := db[name][f.id].(deleted := true)]]) else Some(db)
  }

  // ----- The transaction -----

  /** What the outside decides: which calls of the database fail, and the clock at the two statements. */
  datatype Env = Env(beginFails: bool, firstFails: bool, secondFails: bool, commitFails: bool, now1: int, now2: int)

  datatype Outcome = Outcome(db: Db, ok: bool)

  function Transact(cfg: Config, db: Db, op: Op, f: File, env: Env): Outcome {
    if f.id == 0 || f.hash == [] || env.beginFails || env.firstFails then Outcome(db, false)
    else
      match Statement(db, op, TableNameById(cfg, f), f, env.now1)
      case None => Outcome(db, false)
      case Some(db1) =>
        if env.secondFails then Outcome(db, false)
        else
          match Statement(db1, op, TableNameByHash(cfg, f), f, env.now2)
          case None => Outcome(db, false)
          case Some(db2) => if env.commitFails then Outcome(db, false) else Outcome(db2, true)
  }

  /** The helper and its database. */
  class FileRepoHelper {
    const cfg: Config
    var db: Db

    constructor (cfg: Config, db: Db)
      ensures this.cfg == cfg && this.db == db
    {
      this.cfg := cfg;
      this.db := db;
    }

    /** `doWithTx`: the statements run on the transaction's copy, which replaces the database on commit. */
    method DoWithTx(op: Op, f: File, env: Env) returns (ok: bool)
      modifies this
      ensures Outcome(db, ok) == Transact(cfg, old(db), op, f, env)
      ensures !ok ==> db == old(db)
    {
      if f.id == 0 || f.hash == [] || env.beginFails {
        return false;
      }
      var tx := db;
      var tableNames := [TableNameById(cfg, f), TableNameByHash(cfg, f)];
      for i := 0 to 2
        invariant db == old(db)
        invariant i == 0 ==> tx == db
        invariant i >= 1 ==> !env.firstFails && Statement(db, op, tableNames[0], f, env.now1).Some?
        invariant i == 1 ==> tx == Statement(db, op, tableNames[0], f, env.now1).value
        invariant i == 2 ==> !env.secondFails
        invariant i == 2 ==>
          Statement(Statement(db, op, tableNames[0], f, env.now1).value, op, tableNames[1], f, env.now2) == Some(tx)
      {
        if (i == 0 && env.firstFails) || (i == 1 && env.secondFails) {
          return false;
        }
        var next := Statement(tx, op, tableNames[i], f, if i == 0 then env.now1 else env.now2);
        if next.None? {
          return false;
        }
        tx := next.value;
      }
      if env.commitFails {
        return false;
      }
      db := tx;
      return true;
    }

    method AddFile(f: File, env: Env) returns (ok: bool)
      modifies this
      ensures Outcome(db, ok) == Transact(cfg, old(db), Create, f, env)
    {
      ok := DoWithTx(Create, f, env);
    }

    method UpdateFile(f: File, env: Env) returns (ok: bool)
      modifies this
      ensures Outcome(db, ok) == Transact(cfg, old(db), Update, f, env)
    {
      ok := DoWithTx(Update, f, env);
    }

    method RemoveFile(f: File, env: Env) returns (ok: bool)
      modifies this
      ensures Outcome(db, ok) == Transact(cfg, old(db), Remove, f, env)
    {
      ok := DoWithTx(Remove, f, env);
    }
  }

  /** Nothing the database is asked to do fails. */
  predicate Smooth(env: Env) {
    !env.beginFails && !env.firstFails && !env.secondFails && !env.commitFails
  }

  /**
   Exactly when a file is added: the shard count is positive, since otherwise both names coincide and
   the second insert finds the row of the first; both tables exist, and neither has the id.
   */
  lemma AddSucceedsIff(cfg: Config, db: Db, f: File, env: Env)
    ensures Transact(cfg, db, Create, f, env).ok
       <==> && f.id != 0 && f.hash != [] && Smooth(env) && ShardCount(cfg, KeyOf(f.domain, f.biz)) > 0
            && TableNameById(cfg, f) in db && f.id !in db[TableNameById(cfg, f)]
            && TableNameByHash(cfg, f) in db && f.id !in db[TableNameByHash(cfg, f)]
  {
    var k := KeyOf(f.domain, f.biz);
    if f.hash != [] && ShardCount(cfg, k) > 0 && IdTable(cfg, k, f.id) == HashTable(cfg, k, f.hash) {
      OwnNamesApart(cfg, k, f.id, f.hash);
    }
  }

  /** Exactly when an update or a removal succeeds; whether the row is there does not matter. */
  lemma ChangeSucceedsIff(cfg: Config, db: Db, op: Op, f: File, env: Env)
    requires op != Create
    ensures Transact(cfg, db, op, f, env).ok
       <==> && f.id != 0 && f.hash != [] && Smooth(env)
            && TableNameById(cfg, f) in db && TableNameByHash(cfg, f) in db
  {
  }

  // ----- Agreement of the two shard families -----

  function Lookup(db: Db, name: string, id: int): Option<Row> {
    if name in db && id in db[name] then Some(db[name][id]) else None
  }

  /** The same file, timestamps and the deletion mark aside. */
  predicate Same(a: Row, b: Row) {
    && a.id == b.id && a.domain == b.domain && a.biz == b.biz && a.hash == b.hash
    && a.fileType == b.fileType && a.size == b.size && a.uploaded == b.uploaded
  }

  /** The row for `id` in its id shard has a twin in the shard of its hash. */
  ghost predicate TwinInHash(cfg: Config, db: Db, key: string, id: int)
    requires Sharded(cfg)
  {
    match Lookup(db, IdTable(cfg, key, id), id)
    case None => true
    case Some(r) =>
      && r.id == id && r.hash != []
      && var twin := Lookup(db, HashTable(cfg, key, r.hash), id);
         twin.Some? && Same(r, twin.value)
  }

  /** A row for `id` in the shard `hash` points to has a hash of that shard and a twin in its id shard. */
  ghost predicate TwinInId(cfg: Config, db: Db, key: string, hash: Hash, id: int)
    requires Sharded(cfg) && hash != []
  {
    match Lookup(db, HashTable(cfg, key, hash), id)
    case None => true
    case Some(r) =>
      && r.hash != [] && HashShard(cfg, key, r.hash) == HashShard(cfg, key, hash)
      && var twin := Lookup(db, IdTable(cfg, key, id), id);
         twin.Some? && Same(twin.value, r)
  }

  ghost predicate Agreement(cfg: Config, db: Db)
    requires Sharded(cfg)
  {
    && (forall key, id :: TwinInHash(cfg, db, key, id))
    && (forall key, hash, id | hash != [] :: TwinInId(cfg, db, key, hash, id))
  }

  /** No file is stored; which tables exist is left open. */
  predicate Empty(db: Db) {
    forall n | n in db :: db[n] == map[]
  }

  lemma EmptyTablesAgree(cfg: Config, db: Db)
    requires Sharded(cfg) && Empty(db)
    ensures Agreement(cfg, db)
  {
  }

  /** The stored row of a file's id, if any. */
  function Stored(cfg: Config, db: Db, f: File): Option<Row> {
    Lookup(db, TableNameById(cfg, f), f.id)
  }

  /** Outside the two cells of `f` a transaction changes nothing. */
  lemma OnlyTwoCells(cfg: Config, db: Db, op: Op, f: File, env: Env, name: string, id: int)
    requires f.hash != [] && !(id == f.id && (name == TableNameById(cfg, f) || name == TableNameByHash(cfg, f)))
    ensures Lookup(Transact(cfg, db, op, f, env).db, name, id) == Lookup(db, name, id)
  {
  }

  lemma AddedCells(cfg: Config, db: Db, f: File, env: Env)
    requires Sharded(cfg) && Transact(cfg, db, Create, f, env).ok
    ensures var out := Transact(cfg, db, Create, f, env).db;
            && Lookup(out, TableNameById(cfg, f), f.id) == Some(NewRow(f, env.now1))
            && Lookup(out, TableNameByHash(cfg, f), f.id) == Some(NewRow(f, env.now2))
  {
    NamesApart(cfg);
  }

  lemma AddKeepsTwinInHash(cfg: Config, db: Db, f: File, env: Env, key: string, id: int)
    requires Sharded(cfg) && TwinInHash(cfg, db, key, id)
    requires Transact(cfg, db, Create, f, env).ok
    ensures TwinInHash(cfg, Transact(cfg, db, Create, f, env).db, key, id)
  {
    NamesApart(cfg);
    AddedCells(cfg, db, f, env);
    var name := IdTable(cfg, key, id);
    if id != f.id || name != TableNameById(cfg, f) {
      OnlyTwoCells(cfg, db, Create, f, env, name, id);
      var r := Lookup(db, name, id);
      if r.Some? && (id != f.id || HashTable(cfg, key, r.value.hash) != TableNameByHash(cfg, f)) {
        OnlyTwoCells(cfg, db, Create, f, env, HashTable(cfg, key, r.value.hash), id);
      }
    }
  }

  lemma AddKeepsTwinInId(cfg: Config, db: Db, f: File, env: Env, key: string, hash: Hash, id: int)
    requires Sharded(cfg) && hash != [] && TwinInId(cfg, db, key, hash, id)
    requires Transact(cfg, db, Create, f, env).ok
    ensures TwinInId(cfg, Transact(cfg, db, Create, f, env).db, key, hash, id)
  {
    NamesApart(cfg);
    AddedCells(cfg, db, f, env);
    var name := HashTable(cfg, key, hash);
    if id != f.id || name != TableNameByHash(cfg, f) {
      OnlyTwoCells(cfg, db, Create, f, env, name, id);
      if id != f.id || IdTable(cfg, key, id) != TableNameById(cfg, f) {
        OnlyTwoCells(cfg, db, Create, f, env, IdTable(cfg, key, id), id);
      }
    }
  }

  /** What an operation leaves in the id tables: only the file's own row can differ. */
  lemma IdRowsAfter(cfg: Config, db: Db, op: Op, f: File, env: Env, key: string, id: int)
    requires Sharded(cfg) && Transact(cfg, db, op, f, env).ok
    ensures var before, after := Lookup(db, IdTable(cfg, key, id), id), Lookup(Transact(cfg, db, op, f, env).db, IdTable(cfg, key, id), id);
            after == if id != f.id || key != KeyOf(f.domain, f.biz) then before
                     else if op == Create then Some(NewRow(f, env.now1))
                     else ChangedIf(op, before, f, env.now1)
  {
    NamesApart(cfg);
    if id != f.id || key != KeyOf(f.domain, f.biz) {
      OnlyTwoCells(cfg, db, op, f, env, IdTable(cfg, key, id), id);
    } else if op == Create {
      AddedCells(cfg, db, f, env);
    } else {
      ChangedCells(cfg, db, op, f, env);
    }
  }

  /** Adding a file, whatever its id, keeps the agreement. */
  lemma AddKeepsAgreement(cfg: Config, db: Db, f: File, env: Env)
    requires Sharded(cfg) && Agreement(cfg, db)
    ensures Agreement(cfg, Transact(cfg, db, Create, f, env).db)
  {
    var out := Transact(cfg, db, Create, f, env);
    if out.ok {
      forall key, id ensures TwinInHash(cfg, out.db, key, id) {
        AddKeepsTwinInHash(cfg, db, f, env, key, id);
      }
      forall key, hash, id | hash != [] ensures TwinInId(cfg, out.db, key, hash, id) {
        AddKeepsTwinInId(cfg, db, f, env, key, hash, id);
      }
    }
  }

  /** What `op` makes of a row it finds. */
  function Changed(op: Op, r: Row, f: File, now: int): Row
    requires op != Create
  {
    if op == Update then Merge(r, f, now) else r.(deleted := true)
  }

  function ChangedIf(op: Op, r: Option<Row>, f: File, now: int): Option<Row>
    requires op != Create
  {
    match r case None => None case Some(row) => Some(Changed(op, row, f, now))
  }

  lemma ChangedCells(cfg: Config, db: Db, op: Op, f: File, env: Env)
    requires Sharded(cfg) && op != Create && Transact(cfg, db, op, f, env).ok
    ensures var out := Transact(cfg, db, op, f, env).db;
            && Lookup(out, TableNameById(cfg, f), f.id) == ChangedIf(op, Lookup(db, TableNameById(cfg, f), f.id), f, env.now1)
            && Lookup(out, TableNameByHash(cfg, f), f.id) == ChangedIf(op, Lookup(db, TableNameByHash(cfg, f), f.id), f, env.now2)
  {
    NamesApart(cfg);
  }

  /** An update writes the fields the file gives, in both tables, and leaves those it gives no value for as they were. */
  lemma UpdateWrites(cfg: Config, db: Db, f: File, env: Env)
    requires Sharded(cfg) && Transact(cfg, db, Update, f, env).ok && Stored(cfg, db, f).Some?
    ensures var r := Stored(cfg, db, f).value;
            var r' := Stored(cfg, Transact(cfg, db, Update, f, env).db, f);
            && r'.Some? && r'.value.id == r.id && r'.value.deleted == r.deleted && r'.value.updatedAt == env.now1
            && r'.value.hash == f.hash
            && (f.domain != "" ==> r'.value.domain == f.domain) && (f.domain == "" ==> r'.value.domain == r.domain)
            && (f.biz != "" ==> r'.value.biz == f.biz) && (f.biz == "" ==> r'.value.biz == r.biz)
            && (f.fileType != "" ==> r'.value.fileType == f.fileType) && (f.fileType == "" ==> r'.value.fileType == r.fileType)
            && (f.size != 0 ==> r'.value.size == f.size) && (f.size == 0 ==> r'.value.size == r.size)
            && (f.createdAt != 0 ==> r'.value.createdAt == f.createdAt) && (f.createdAt == 0 ==> r'.value.createdAt == r.createdAt)
            && r'.value.uploaded == (f.uploaded || r.uploaded)
  {
    ChangedCells(cfg, db, Update, f, env);
  }

  /** Whether the stored row of `f`, if there is one, is in the hash shard the transaction will touch. */
  predicate SameShard(cfg: Config, db: Db, f: File)
    requires ShardCount(cfg, KeyOf(f.domain, f.biz)) > 0 && f.hash != []
  {
    var k := KeyOf(f.domain, f.biz);
    match Stored(cfg, db, f)
    case None => true
    case Some(r) => r.hash != [] && HashShard(cfg, k, r.hash) == HashShard(cfg, k, f.hash)
  }

  lemma ChangeKeepsTwinInHash(cfg: Config, db: Db, op: Op, f: File, env: Env, key: string, id: int)
    requires Sharded(cfg) && Agreement(cfg, db) && op != Create && Transact(cfg, db, op, f, env).ok
    requires op == Update ==> SameShard(cfg, db, f)
    ensures TwinInHash(cfg, Transact(cfg, db, op, f, env).db, key, id)
  {
    NamesApart(cfg);
    ChangedCells(cfg, db, op, f, env);
    assert TwinInHash(cfg, db, key, id);
    var name := IdTable(cfg, key, id);
    var r := Lookup(db, name, id);
    if r.Some? {
      var hashName := HashTable(cfg, key, r.value.hash);
      if id != f.id || key != KeyOf(f.domain, f.biz) {
        OnlyTwoCells(cfg, db, op, f, env, name, id);
        OnlyTwoCells(cfg, db, op, f, env, hashName, id);
      } else if hashName != TableNameByHash(cfg, f) {
        OnlyTwoCells(cfg, db, op, f, env, hashName, id);
      }
    } else if id != f.id || name != TableNameById(cfg, f) {
      OnlyTwoCells(cfg, db, op, f, env, name, id);
    }
  }

  lemma ChangeKeepsTwinInId(cfg: Config, db: Db, op: Op, f: File, env: Env, key: string, hash: Hash, id: int)
    requires Sharded(cfg) && Agreement(cfg, db) && hash != [] && op != Create && Transact(cfg, db, op, f, env).ok
    requires op == Update ==> SameShard(cfg, db, f)
    ensures TwinInId(cfg, Transact(cfg, db, op, f, env).db, key, hash, id)
  {
    NamesApart(cfg);
    ChangedCells(cfg, db, op, f, env);
    assert TwinInId(cfg, db, key, hash, id);
    assert TwinInHash(cfg, db, key, id);
    var name := HashTable(cfg, key, hash);
    if id != f.id || key != KeyOf(f.domain, f.biz) {
      OnlyTwoCells(cfg, db, op, f, env, name, id);
      OnlyTwoCells(cfg, db, op, f, env, IdTable(cfg, key, id), id);
    } else if name != TableNameByHash(cfg, f) {
      OnlyTwoCells(cfg, db, op, f, env, name, id);
    }
  }

  lemma ChangeKeepsAgreement(cfg: Config, db: Db, op: Op, f: File, env: Env)
    requires Sharded(cfg) && Agreement(cfg, db) && op != Create
    requires op == Update && f.hash != [] ==> SameShard(cfg, db, f)
    ensures Agreement(cfg, Transact(cfg, db, op, f, env).db)
  {
    var out := Transact(cfg, db, op, f, env);
    if out.ok {
      forall key, id ensures TwinInHash(cfg, out.db, key, id) {
        ChangeKeepsTwinInHash(cfg, db, op, f, env, key, id);
      }
      forall key, hash, id | hash != [] ensures TwinInId(cfg, out.db, key, hash, id) {
        ChangeKeepsTwinInId(cfg, db, op, f, env, key, hash, id);
      }
    }
  }

  /**
   The update theorem: an update that succeeds keeps the agreement exactly when no row is stored for
   the file's id or the stored hash is in the same hash shard as the file's.
   */
  lemma UpdateKeepsAgreementIff(cfg: Config, db: Db, f: File, env: Env)
    requires Sharded(cfg) && Agreement(cfg, db) && Transact(cfg, db, Update, f, env).ok
    ensures Agreement(cfg, Transact(cfg, db, Update, f, env).db) <==> SameShard(cfg, db, f)
  {
    if SameShard(cfg, db, f) {
      ChangeKeepsAgreement(cfg, db, Update, f, env);
    } else {
      NamesApart(cfg);
      ChangedCells(cfg, db, Update, f, env);
      var k := KeyOf(f.domain, f.biz);
      assert TwinInHash(cfg, db, k, f.id) && TwinInId(cfg, db, k, f.hash, f.id);
      assert !TwinInHash(cfg, Transact(cfg, db, Update, f, env).db, k, f.id);
    }
  }

  /** The first file of a system: it is stored in both its tables. */
  lemma FirstFile(cfg: Config, db: Db, f: File, env: Env)
    requires Sharded(cfg) && Empty(db) && f.id != 0 && f.hash != [] && Smooth(env)
    requires TableNameById(cfg, f) in db && TableNameByHash(cfg, f) in db
    ensures var out := Transact(cfg, db, Create, f, env);
            out.ok && Agreement(cfg, out.db) && Stored(cfg, out.db, f) == Some(NewRow(f, env.now1)) && out.db.Keys == db.Keys
  {
    EmptyTablesAgree(cfg, db);
    AddSucceedsIff(cfg, db, f, env);
    AddKeepsAgreement(cfg, db, f, env);
    AddedCells(cfg, db, f, env);
  }

  /** The condition matters: an update that gives a file a hash of another shard breaks the agreement. */
  lemma UpdateAcrossShards() returns (cfg: Config, db: Db, f: File, env: Env)
    ensures cfg == map["file_campus_public" := 5] && f.hash == [65]
    ensures Sharded(cfg) && Agreement(cfg, db) && Transact(cfg, db, Update, f, env).ok
    ensures !Agreement(cfg, Transact(cfg, db, Update, f, env).db)
  {
    var key := "file_campus_public";
    cfg, env := map[key := 5], Env(false, false, false, false, 0, 0);
    var stored := File(1, "campus", "public", [97], "", 0, false, 0);
    f := stored.(hash := [65]);
    assert KeyOf("campus", "public") == key;
    var empty: Db := map[IdTable(cfg, key, 1) := map[], HashTable(cfg, key, [97]) := map[], HashTable(cfg, key, [65]) := map[]];
    FirstFile(cfg, empty, stored, env);
    db := Transact(cfg, empty, Create, stored, env).db;
    assert HashTable(cfg, key, [65]) in empty.Keys && IdTable(cfg, key, 1) in empty.Keys;
    assert HashShard(cfg, key, [97]) == 2 && HashShard(cfg, key, [65]) == 0;
    UpdateKeepsAgreementIff(cfg, db, f, env);
  }

  // ----- Runs -----

  datatype Step = Step(op: Op, file: File, env: Env)

  function RunSteps(cfg: Config, db: Db, steps: seq<Step>): Db
    decreases |steps|
  {
    if steps == [] then db else RunSteps(cfg, Transact(cfg, db, steps[0].op, steps[0].file, steps[0].env).db, steps[1..])
  }

  /** Each update of the run is for a hash in the shard of the stored one. */
  ghost predicate UpdatesStayInShard(cfg: Config, db: Db, steps: seq<Step>)
    requires Sharded(cfg)
    decreases |steps|
  {
    steps != [] ==>
      && (steps[0].op == Update && steps[0].file.hash != [] ==> SameShard(cfg, db, steps[0].file))
      && UpdatesStayInShard(cfg, Transact(cfg, db, steps[0].op, steps[0].file, steps[0].env).db, steps[1..])
  }

  /** Over any run of additions, removals and such updates, succeeding or failing, the two families agree. */
  lemma {:induction false} RunKeepsAgreement(cfg: Config, db: Db, steps: seq<Step>)
    requires Sharded(cfg) && Agreement(cfg, db) && UpdatesStayInShard(cfg, db, steps)
    ensures Agreement(cfg, RunSteps(cfg, db, steps))
    decreases |steps|
  {
    if steps != [] {
      var s := steps[0];
      if s.op == Create {
        AddKeepsAgreement(cfg, db, s.file, s.env);
      } else {
        ChangeKeepsAgreement(cfg, db, s.op, s.file, s.env);
      }
      RunKeepsAgreement(cfg, Transact(cfg, db, s.op, s.file, s.env).db, steps[1..]);
    }
  }

  /** So they agree after every such run of a system that starts without files. */
  lemma RunsFromEmptyAgree(cfg: Config, db: Db, steps: seq<Step>)
    requires Sharded(cfg) && Empty(db) && UpdatesStayInShard(cfg, db, steps)
    ensures Agreement(cfg, RunSteps(cfg, db, steps))
  {
    EmptyTablesAgree(cfg, db);
    RunKeepsAgreement(cfg, db, steps);
  }
}
