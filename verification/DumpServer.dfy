/**
  The server as mysqldump sees it: table data, the binary log that produced it,
  the global read lock, the session's table locks and its consistent snapshot.

  A committed transaction is an arbitrary function on databases, so nothing
  depends on what kind of statements the other clients run.
 */
module DumpServer {
  import opened Wrappers

  type TableName = string
  type Rows = seq<string>
  type Database = map<TableName, Rows>
  type Trx = Database -> Database
  type BinlogFile = seq<Trx>

  /** A binary log coordinate: a file, and how many transactions of it are included. */
  datatype Position = Position(file: nat, offset: nat)

  datatype Snapshot = Snapshot(data: Database, pos: Position)

  datatype Server = Server(
    files: seq<BinlogFile>,       // every binary log file ever written, the last one is active
    purged: nat,                  // files[..purged] have been deleted
    data: Database,               // the committed data
    transactional: set<TableName>, // tables whose engine honours a consistent snapshot
    globalLock: bool,             // FLUSH TABLES WITH READ LOCK held by the dumping session
    tableLocks: set<TableName>,   // LOCK TABLES ... READ held by the dumping session
    snapshot: Option<Snapshot>)   // the dumping session's consistent snapshot

  function Rows0(db: Database, t: TableName): Rows {
    if t in db then db[t] else []
  }

  /** The data obtained by applying a log to a database, oldest transaction first. */
  function Replay(db: Database, log: seq<Trx>): Database {
    if log == [] then db else log[|log| - 1](Replay(db, log[..|log| - 1]))
  }

  function Concat(files: seq<BinlogFile>): seq<Trx> {
    if files == [] then [] else Concat(files[..|files| - 1]) + files[|files| - 1]
  }

  predicate ValidPosition(files: seq<BinlogFile>, p: Position) {
    p.file < |files| && p.offset <= |files[p.file]|
  }

  /** Everything logged before a position. */
  function LogBefore(files: seq<BinlogFile>, p: Position): seq<Trx>
    requires ValidPosition(files, p)
  {
    Concat(files[..p.file]) + files[p.file][..p.offset]
  }

  /** Everything logged from a position on. */
  function LogFrom(files: seq<BinlogFile>, p: Position): seq<Trx>
    requires ValidPosition(files, p)
  {
    files[p.file][p.offset..] + Concat(files[p.file + 1..])
  }

  /** What SHOW MASTER STATUS reports. */
  function MasterStatus(files: seq<BinlogFile>): Position
    requires |files| >= 1
  {
    Position(|files| - 1, |files[|files| - 1]|)
  }

  /** The global lock stops every commit; table locks stop commits that change a locked table. */
  predicate CanCommit(s: Server, trx: Trx) {
    && !s.globalLock
    && forall t :: t in s.tableLocks ==> Rows0(trx(s.data), t) == Rows0(s.data, t)
  }

  function Commit(s: Server, trx: Trx): Server
    requires |s.files| >= 1
  {
    if CanCommit(s, trx) then
      var last := |s.files| - 1;
      s.(files := s.files[last := s.files[last] + [trx]], data := trx(s.data))
    else
      s
  }

  function Rotate(s: Server): Server {
    s.(files := s.files + [[]])
  }

  /** What one SELECT of the dumping session returns. */
  function Select(s: Server, t: TableName): Rows {
    if s.snapshot.Some? && t in s.transactional
    then Rows0(s.snapshot.value.data, t)
    else Rows0(s.data, t)
  }

  lemma {:induction false} ConcatAppend(files: seq<BinlogFile>, more: seq<BinlogFile>)
    ensures Concat(files + more) == Concat(files) + Concat(more)
    decreases |more|
  {
    if more == [] {
      assert files + more == files;
    } else {
      var front := more[..|more| - 1];
      ConcatAppend(files, front);
      assert (files + more)[..|files + more| - 1] == files + front;
    }
  }

  lemma {:induction false} ReplayAppend(db: Database, a: seq<Trx>, b: seq<Trx>)
    ensures Replay(db, a + b) == Replay(Replay(db, a), b)
    decreases |b|
  {
    if b == [] {
      assert a + b == a;
    } else {
      ReplayAppend(db, a, b[..|b| - 1]);
      assert (a + b)[..|a + b| - 1] == a + b[..|b| - 1];
    }
  }

  /** A position splits the log in two. */
  lemma {:induction false} LogSplit(files: seq<BinlogFile>, p: Position)
    requires ValidPosition(files, p)
    ensures Concat(files) == LogBefore(files, p) + LogFrom(files, p)
  {
    var f := p.file;
    ConcatAppend(files[..f + 1], files[f + 1..]);
    assert files[..f + 1] + files[f + 1..] == files;
    assert files[..f + 1][..f] == files[..f];
    assert files[f][..p.offset] + files[f][p.offset..] == files[f];
  }

  lemma {:induction false} MasterStatusIsWholeLog(files: seq<BinlogFile>)
    requires |files| >= 1
    ensures ValidPosition(files, MasterStatus(files))
    ensures LogBefore(files, MasterStatus(files)) == Concat(files)
  {
    var last := |files| - 1;
    var file := files[last];
    assert file[..|file|] == file;
    assert LogBefore(files, Position(last, |file|)) == Concat(files[..last]) + file;
  }

  /** Commits append to the log and to nothing else; earlier positions keep their prefix. */
  lemma CommitExtendsLog(s: Server, trx: Trx)
    requires |s.files| >= 1 && CanCommit(s, trx)
    ensures var s' := Commit(s, trx);
      && Concat(s'.files) == Concat(s.files) + [trx]
      && forall p :: ValidPosition(s.files, p) ==>
           ValidPosition(s'.files, p) && LogBefore(s'.files, p) == LogBefore(s.files, p)
  {
    var s' := Commit(s, trx);
    var last := |s.files| - 1;
    assert s'.files[..last] == s.files[..last];
    forall p | ValidPosition(s.files, p)
      ensures ValidPosition(s'.files, p) && LogBefore(s'.files, p) == LogBefore(s.files, p)
    {
      assert s'.files[..p.file] == s.files[..p.file];
      assert s'.files[p.file][..p.offset] == s.files[p.file][..p.offset];
    }
  }

  lemma RotateKeepsLog(s: Server)
    ensures var s' := Rotate(s);
      && Concat(s'.files) == Concat(s.files)
      && forall p :: ValidPosition(s.files, p) ==>
           ValidPosition(s'.files, p) && LogBefore(s'.files, p) == LogBefore(s.files, p)
  {
    var s' := Rotate(s);
    assert s'.files[..|s.files|] == s.files;
    forall p | ValidPosition(s.files, p)
      ensures ValidPosition(s'.files, p) && LogBefore(s'.files, p) == LogBefore(s.files, p)
    {
      assert s'.files[..p.file] == s.files[..p.file];
    }
  }

  /** Two databases have the same rows in these tables. */
  ghost predicate Agree(a: Database, b: Database, tables: set<TableName>) {
    forall t :: t in tables ==> Rows0(a, t) == Rows0(b, t)
  }

  /** What a transaction does to these tables depends on these tables only. */
  ghost predicate Local(trx: Trx, tables: set<TableName>) {
    forall a, b :: Agree(a, b, tables) ==> Agree(trx(a), trx(b), tables)
  }

  /** Replaying such transactions on a part of a database gives that part of the result. */
  lemma {:induction false} ReplayLocal(a: Database, b: Database, log: seq<Trx>, tables: set<TableName>)
    requires Agree(a, b, tables) && forall trx :: trx in log ==> Local(trx, tables)
    ensures Agree(Replay(a, log), Replay(b, log), tables)
  {
    if log != [] {
      ReplayLocal(a, b, log[..|log| - 1], tables);
      assert Local(log[|log| - 1], tables);
    }
  }
}
