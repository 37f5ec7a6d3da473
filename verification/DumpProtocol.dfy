/**
  mysqldump's option normalisation and the lock / snapshot / position / unlock /
  dump / purge sequence of its main function, as a state machine whose steps
  interleave freely with the commits and log rotations of other clients.
 */
module DumpProtocol {
  import opened Wrappers
  import opened DumpServer

  datatype MasterData = Off | EffectiveSql | CommentedSql

  datatype Options = Options(
    singleTransaction: bool,
    lockAllTables: bool,
    masterData: MasterData,
    deleteMasterLogs: bool,
    slaveData: bool,
    lockTables: bool,
    flushLogs: bool)

  datatype UsageError = SingleTransactionWithLockAllTables

  /** The part of get_options that makes the binlog and locking options agree. */
  function Normalise(o0: Options): Result<Options, UsageError> {
    var o1 := if o0.slaveData
              then o0.(lockAllTables := !o0.singleTransaction, masterData := Off, deleteMasterLogs := false)
              else o0;
    var o2 := if o1.deleteMasterLogs && o1.masterData == Off then o1.(masterData := CommentedSql) else o1;
    if o2.singleTransaction && o2.lockAllTables then
      Failure(SingleTransactionWithLockAllTables)
    else
      var o3 := if o2.masterData != Off
                then o2.(lockAllTables := !o2.singleTransaction, slaveData := false)
                else o2;
      Success(if o3.singleTransaction || o3.lockAllTables then o3.(lockTables := false) else o3)
  }

  /** One statement of the table-dumping part of the program. */
  datatype Task =
    | LockTables(tables: set<TableName>)
    | RefreshLogs
    | DumpTable(table: TableName)
    | UnlockTables

  function DumpTables(tables: seq<TableName>): seq<Task> {
    seq(|tables|, i requires 0 <= i < |tables| => DumpTable(tables[i]))
  }

  /** dump_all_tables_in_db, and dump_selected_tables for a single list of tables. */
  function DatabaseTasks(lockTables: bool, flushLogs: bool, tables: seq<TableName>): seq<Task> {
    (if lockTables && tables != [] then [LockTables(set t | t in tables)] else [])
    + (if flushLogs then [RefreshLogs] else [])
    + DumpTables(tables)
    + (if lockTables then [UnlockTables] else [])
  }

  function DumpPlan(lockTables: bool, flushLogs: bool, databases: seq<seq<TableName>>): seq<Task> {
    if databases == [] then []
    else DatabaseTasks(lockTables, flushLogs, databases[0]) + DumpPlan(lockTables, flushLogs, databases[1..])
  }

  /** The stages of main, in program order. */
  datatype Phase =
    | Probe | Lock | Flush | NameLog | Begin | WritePosition | Unlock | Dump | Purge
    | Finished | Failed

  datatype Client = Client(
    phase: Phase,
    flushLogs: bool,               // the flush_logs variable, cleared once the logs were flushed
    consistentPos: bool,           // consistent_binlog_pos
    logName: Option<nat>,          // bin_log_name, as an index of a log file
    position: Option<Position>,    // the position written to the dump
    todo: seq<Task>,
    dumped: map<TableName, Rows>)

  /** What a run is given: options, server capability, and the tables to dump. */
  datatype Job = Job(opts: Options, hasSnapshotStatus: bool, databases: seq<seq<TableName>>)

  datatype State = State(server: Server, client: Client)

  datatype Action =
    | OtherCommits(trx: Trx)       // another client commits; ignored while the server blocks it
    | OtherRotates                 // another client or the server starts a new log file
    | Proceed                      // mysqldump executes its next statement
    | Fail                         // mysqldump's next statement fails and it gives up

  predicate WantsReadLock(o: Options, c: Client) {
    o.lockAllTables || (o.masterData != Off && !c.consistentPos) || (o.singleTransaction && c.flushLogs)
  }

  predicate InFlushBlock(o: Options, c: Client) {
    o.lockAllTables || o.masterData != Off || (o.singleTransaction && c.flushLogs) || o.deleteMasterLogs
  }

  /** REFRESH LOGS starts a new file and implicitly commits the session's transaction. */
  function FlushLogs(s: Server): Server {
    Rotate(s).(snapshot := None)
  }

  function StartSnapshot(s: Server): Server
    requires |s.files| >= 1
  {
    s.(snapshot := Some(Snapshot(s.data, MasterStatus(s.files))))
  }

  /** UNLOCK TABLES; it ends the transaction only when LOCK TABLES was used. */
  function ReleaseLocks(s: Server): Server {
    s.(globalLock := false, tableLocks := {},
       snapshot := if s.tableLocks != {} then None else s.snapshot)
  }

  /** do_show_master_status: the snapshot's own position when the server publishes it. */
  function ReportedPosition(s: Server, consistentPos: bool): Position
    requires |s.files| >= 1
  {
    if consistentPos && s.snapshot.Some? then s.snapshot.value.pos else MasterStatus(s.files)
  }

  function RunTask(s: State, task: Task): State
    requires |s.server.files| >= 1
  {
    match task
    case LockTables(ts) => s.(server := s.server.(tableLocks := ts, snapshot := None))
    case RefreshLogs => s.(server := FlushLogs(s.server))
    case DumpTable(t) => s.(client := s.client.(dumped := s.client.dumped[t := Select(s.server, t)]))
    case UnlockTables => s.(server := ReleaseLocks(s.server))
  }

  function ClientStep(job: Job, s: State): State
    requires |s.server.files| >= 1
  {
    var o, c, srv := job.opts, s.client, s.server;
    match c.phase
    case Probe =>
      State(srv, c.(phase := Lock,
                    consistentPos := o.singleTransaction && o.masterData != Off && job.hasSnapshotStatus))
    case Lock =>
      State(if WantsReadLock(o, c) then srv.(globalLock := true) else srv, c.(phase := Flush))
    case Flush =>
      if InFlushBlock(o, c) then
        State(if c.flushLogs || o.deleteMasterLogs then FlushLogs(srv) else srv,
              c.(phase := NameLog, flushLogs := false))
      else
        State(srv, c.(phase := NameLog))
    case NameLog =>
      State(srv, c.(phase := Begin,
                    logName := if o.deleteMasterLogs then Some(|srv.files| - 1) else c.logName))
    case Begin =>
      State(if o.singleTransaction then StartSnapshot(srv) else srv, c.(phase := WritePosition))
    case WritePosition =>
      State(srv, c.(phase := Unlock,
                    position := if o.masterData != Off then Some(ReportedPosition(srv, c.consistentPos))
                                else c.position))
    case Unlock =>
      State(if o.singleTransaction then ReleaseLocks(srv) else srv,
            c.(phase := Dump, todo := DumpPlan(o.lockTables, c.flushLogs, job.databases)))
    case Dump =>
      if c.todo == [] then
        State(srv, c.(phase := Purge))
      else
        var s' := RunTask(s, c.todo[0]);
        s'.(client := s'.client.(todo := c.todo[1..]))
    case Purge =>
      State(if o.deleteMasterLogs && c.logName.Some? && srv.purged < c.logName.value
            then srv.(purged := c.logName.value) else srv,
            c.(phase := Finished))
    case Finished => s
    case Failed => s
  }

  function Step(job: Job, s: State, a: Action): State
    requires |s.server.files| >= 1
    ensures |Step(job, s, a).server.files| >= |s.server.files|
  {
    match a
    case OtherCommits(trx) => s.(server := Commit(s.server, trx))
    case OtherRotates => s.(server := Rotate(s.server))
    case Proceed => ClientStep(job, s)
    case Fail => if s.client.phase == Finished then s else s.(client := s.client.(phase := Failed))
  }

  /** The state after any interleaving of actions. */
  function Run(job: Job, s: State, acts: seq<Action>): State
    requires |s.server.files| >= 1
    ensures |Run(job, s, acts).server.files| >= 1
  {
    if acts == [] then s else Step(job, Run(job, s, acts[..|acts| - 1]), acts[|acts| - 1])
  }

  /** A running server, and mysqldump just connected to it. */
  predicate Initial(base: Database, job: Job, s: State) {
    && |s.server.files| >= 1
    && s.server.purged < |s.server.files|
    && s.server.data == Replay(base, Concat(s.server.files))
    && !s.server.globalLock && s.server.tableLocks == {} && s.server.snapshot == None
    && s.client == Client(Probe, job.opts.flushLogs, false, None, None, [], map[])
  }

  // ---------------------------------------------------------------- invariant

  predicate Blocking(o: Options) {
    o.singleTransaction || o.lockAllTables
  }

  /** Options as Normalise leaves them. */
  predicate Normalised(o: Options) {
    && !(o.singleTransaction && o.lockAllTables)
    && (o.masterData != Off ==> Blocking(o))
    && (Blocking(o) ==> !o.lockTables)
    && (o.deleteMasterLogs ==> o.masterData != Off)
  }

  lemma NormaliseEstablishes(o: Options)
    requires Normalise(o).Success?
    ensures Normalised(Normalise(o).value)
  {
  }

  /** The user asked for the position of the dump in the binary log. */
  predicate AsksPosition(raw: Options) {
    !raw.slaveData && (raw.masterData != Off || raw.deleteMasterLogs)
  }

  /** The user asked for a dump of one moment. */
  predicate AsksOneMoment(raw: Options) {
    raw.singleTransaction || raw.lockAllTables || raw.slaveData || raw.deleteMasterLogs || raw.masterData != Off
  }

  /**
    What becomes of the options, for every combination of them. Only --single-transaction with
    --lock-all-tables is refused, unless --dump-slave decides between them. A dump of one
    moment is made exactly when it was asked for, by a snapshot if --single-transaction was given
    and else under the global lock; tables are locked per database only without either.
   */
  lemma NormaliseIsExact(raw: Options)
    ensures Normalise(raw).Failure? <==> raw.singleTransaction && raw.lockAllTables && !raw.slaveData
    ensures Normalise(raw).Success? ==>
      var o := Normalise(raw).value;
      && o.singleTransaction == raw.singleTransaction && o.flushLogs == raw.flushLogs && o.slaveData == raw.slaveData
      && o.lockAllTables == (AsksOneMoment(raw) && !raw.singleTransaction)
      && o.lockTables == (raw.lockTables && !AsksOneMoment(raw))
      && (Blocking(o) <==> AsksOneMoment(raw)) && (o.masterData != Off <==> AsksPosition(raw))
      && (raw.masterData != Off && !raw.slaveData ==> o.masterData == raw.masterData)
      && (raw.masterData == Off && AsksPosition(raw) ==> o.masterData == CommentedSql)
      && o.deleteMasterLogs == (raw.deleteMasterLogs && !raw.slaveData)
  {
  }

  function Rank(p: Phase): nat {
    match p
    case Probe => 0 case Lock => 1 case Flush => 2 case NameLog => 3 case Begin => 4
    case WritePosition => 5 case Unlock => 6 case Dump => 7 case Purge => 8
    case Finished => 9 case Failed => 10
  }

  /** The server's data is the replay of its log, and so is the snapshot's. */
  ghost predicate ServerInv(base: Database, s: Server) {
    && |s.files| >= 1
    && s.purged < |s.files|
    && s.data == Replay(base, Concat(s.files))
    && s.tableLocks == {}
    && (s.snapshot.Some? ==>
          && ValidPosition(s.files, s.snapshot.value.pos)
          && s.purged <= s.snapshot.value.pos.file
          && s.snapshot.value.data == Replay(base, LogBefore(s.files, s.snapshot.value.pos)))
  }

  /** What holds the dump's view of the data fixed at each stage. */
  ghost predicate LockInv(o: Options, s: State) {
    var c, srv := s.client, s.server;
    && (o.lockAllTables && Rank(c.phase) >= 2 && c.phase != Failed ==> srv.globalLock)
    && (o.singleTransaction && Rank(c.phase) >= 5 && c.phase != Failed ==> srv.snapshot.Some?)
    && (!o.singleTransaction ==> srv.snapshot == None)
    && (o.masterData != Off && !c.consistentPos && 2 <= Rank(c.phase) <= 6 ==> srv.globalLock)
    && (o.masterData != Off && !c.consistentPos && srv.snapshot.Some? && 5 <= Rank(c.phase) <= 6 ==>
          ValidPosition(srv.files, srv.snapshot.value.pos)
          && Concat(srv.files) == LogBefore(srv.files, srv.snapshot.value.pos))
    && (c.consistentPos ==> o.singleTransaction)
    && (Rank(c.phase) >= 3 && c.phase != Failed && Blocking(o) ==> !c.flushLogs)
    && (Rank(c.phase) <= 4 ==> srv.snapshot == None)
  }

  /** The data the dump is a copy of. */
  function View(o: Options, s: Server): Database {
    if o.singleTransaction && s.snapshot.Some? then s.snapshot.value.data else s.data
  }

  predicate Covered(o: Options, s: Server, t: TableName) {
    o.singleTransaction ==> t in s.transactional
  }

  ghost predicate DumpInv(base: Database, job: Job, s: State) {
    var o, c, srv := job.opts, s.client, s.server;
    && (Rank(c.phase) <= 6 ==> c.todo == [] && c.dumped == map[])
    && (forall task :: task in c.todo ==> task.DumpTable?)
    && (Rank(c.phase) <= 5 ==> c.position == None)
    && (c.phase in {Dump, Purge, Finished} ==>
          forall db, t :: db in job.databases && t in db ==> t in c.dumped || DumpTable(t) in c.todo)
    && (c.phase in {Purge, Finished} ==> c.todo == [])
    && (o.masterData != Off && Rank(c.phase) >= 6 && c.phase != Failed ==> c.position.Some?)
    && (c.position.Some? ==>
          && o.masterData != Off
          && ValidPosition(srv.files, c.position.value)
          && srv.purged <= c.position.value.file
          && (c.logName.Some? ==> c.logName.value <= c.position.value.file))
    && (c.logName.Some? ==> c.logName.value < |srv.files|)
    && (c.logName.Some? && srv.snapshot.Some? ==> c.logName.value <= srv.snapshot.value.pos.file)
    && (Rank(c.phase) <= 3 ==> c.logName == None)
  }

  /** Every table dumped so far is the view's, and the position names the view. */
  ghost predicate ViewInv(base: Database, job: Job, s: State) {
    var o, c, srv := job.opts, s.client, s.server;
    c.phase != Failed ==>
      && (forall t :: t in c.dumped && Covered(o, srv, t) ==> c.dumped[t] == Rows0(View(o, srv), t))
      && (c.position.Some? ==>
            ValidPosition(srv.files, c.position.value)
            && View(o, srv) == Replay(base, LogBefore(srv.files, c.position.value)))
  }

  ghost predicate Inv(base: Database, job: Job, s: State) {
    ServerInv(base, s.server) && LockInv(job.opts, s) && DumpInv(base, job, s) && ViewInv(base, job, s)
  }

  lemma InitialInv(base: Database, job: Job, s: State)
    requires Normalised(job.opts) && Initial(base, job, s)
    ensures Inv(base, job, s)
  {
  }

  lemma CommitKeepsInv(base: Database, job: Job, s: State, trx: Trx)
    requires Normalised(job.opts) && Blocking(job.opts) && Inv(base, job, s)
    ensures Inv(base, job, Step(job, s, OtherCommits(trx)))
  {
    if CanCommit(s.server, trx) {
      CommitExtendsLog(s.server, trx);
      var log := Concat(s.server.files);
      assert (log + [trx])[..|log|] == log;
    }
  }

  lemma RotateKeepsInv(base: Database, job: Job, s: State)
    requires Normalised(job.opts) && Blocking(job.opts) && Inv(base, job, s)
    ensures Inv(base, job, Step(job, s, OtherRotates))
  {
    RotateKeepsLog(s.server);
  }

  lemma {:induction false} PlanOnlyDumps(databases: seq<seq<TableName>>)
    ensures forall task :: task in DumpPlan(false, false, databases) ==> task.DumpTable?
    ensures forall db, t :: db in databases && t in db ==> DumpTable(t) in DumpPlan(false, false, databases)
  {
    if databases != [] {
      PlanOnlyDumps(databases[1..]);
      var tasks := DatabaseTasks(false, false, databases[0]);
      forall db, t | db in databases && t in db
        ensures DumpTable(t) in DumpPlan(false, false, databases)
      {
        if db == databases[0] {
          var i :| 0 <= i < |db| && db[i] == t;
          assert tasks[i] == DumpTable(t);
        } else {
          assert db in databases[1..];
        }
      }
    }
  }

  /** The steps before the data is read: lock, flush, snapshot, position. */
  lemma SetupKeepsInv(base: Database, job: Job, s: State)
    requires Normalised(job.opts) && Blocking(job.opts) && Inv(base, job, s)
    requires s.client.phase in {Probe, Lock, Flush, NameLog}
    ensures Inv(base, job, ClientStep(job, s))
  {
    RotateKeepsLog(s.server);
  }

  lemma SnapshotKeepsInv(base: Database, job: Job, s: State)
    requires Normalised(job.opts) && Blocking(job.opts) && Inv(base, job, s)
    requires s.client.phase in {Begin, WritePosition}
    ensures Inv(base, job, ClientStep(job, s))
  {
    MasterStatusIsWholeLog(s.server.files);
  }

  lemma UnlockKeepsInv(base: Database, job: Job, s: State)
    requires Normalised(job.opts) && Blocking(job.opts) && Inv(base, job, s)
    requires s.client.phase == Unlock
    ensures Inv(base, job, ClientStep(job, s))
  {
    PlanOnlyDumps(job.databases);
  }

  lemma DumpKeepsInv(base: Database, job: Job, s: State)
    requires Normalised(job.opts) && Blocking(job.opts) && Inv(base, job, s)
    requires s.client.phase in {Dump, Purge}
    ensures Inv(base, job, ClientStep(job, s))
  {
    if s.client.phase == Dump && s.client.todo != [] {
      assert s.client.todo[0] in s.client.todo;
    }
  }

  lemma StepKeepsInv(base: Database, job: Job, s: State, a: Action)
    requires Normalised(job.opts) && Blocking(job.opts) && Inv(base, job, s)
    ensures Inv(base, job, Step(job, s, a))
  {
    match a
    case OtherCommits(trx) => CommitKeepsInv(base, job, s, trx);
    case OtherRotates => RotateKeepsInv(base, job, s);
    case Fail =>
    case Proceed =>
      match s.client.phase {
        case Probe | Lock | Flush | NameLog => SetupKeepsInv(base, job, s);
        case Begin | WritePosition => SnapshotKeepsInv(base, job, s);
        case Unlock => UnlockKeepsInv(base, job, s);
        case Dump | Purge => DumpKeepsInv(base, job, s);
        case Finished | Failed =>
      }
  }

  lemma {:induction false} RunKeepsInv(base: Database, job: Job, s: State, acts: seq<Action>)
    requires Normalised(job.opts) && Blocking(job.opts) && Initial(base, job, s)
    ensures Inv(base, job, Run(job, s, acts))
  {
    if acts == [] {
      InitialInv(base, job, s);
    } else {
      var front := acts[..|acts| - 1];
      RunKeepsInv(base, job, s, front);
      StepKeepsInv(base, job, Run(job, s, front), acts[|acts| - 1]);
    }
  }

  // ---------------------------------------------------------------- theorems

  /**
    The promise of --master-data: whatever the other clients do, every table in the dump
    is what the log before the written position produces. With --single-transaction this
    is said of tables whose engine honours the snapshot.
   */
  lemma PositionMatchesDump(raw: Options, base: Database, job: Job, s0: State, acts: seq<Action>)
    requires Normalise(raw) == Success(job.opts) && AsksPosition(raw)
    requires Initial(base, job, s0)
    ensures var s := Run(job, s0, acts);
      s.client.phase != Failed && s.client.dumped != map[] ==>
        && s.client.position.Some?
        && ValidPosition(s.server.files, s.client.position.value)
        && forall t :: t in s.client.dumped && Covered(job.opts, s.server, t) ==>
             s.client.dumped[t]
             == Rows0(Replay(base, LogBefore(s.server.files, s.client.position.value)), t)
  {
    NormaliseEstablishes(raw);
    NormaliseIsExact(raw);
    RunKeepsInv(base, job, s0, acts);
  }

  /** --delete-master-logs: no file holding log from the written position on is ever purged. */
  lemma PurgeKeepsNeededLogs(raw: Options, base: Database, job: Job, s0: State, acts: seq<Action>)
    requires Normalise(raw) == Success(job.opts) && AsksPosition(raw)
    requires Initial(base, job, s0)
    ensures var s := Run(job, s0, acts);
      s.client.position.Some? ==> s.server.purged <= s.client.position.value.file < |s.server.files|
  {
    NormaliseEstablishes(raw);
    NormaliseIsExact(raw);
    RunKeepsInv(base, job, s0, acts);
  }

  /** The tables asked for. */
  predicate Asked(job: Job, t: TableName) {
    exists db :: db in job.databases && t in db
  }

  lemma {:induction false} PlanHasAll(lockTables: bool, flushLogs: bool, databases: seq<seq<TableName>>, t: TableName)
    requires exists db :: db in databases && t in db
    ensures DumpTable(t) in DumpPlan(lockTables, flushLogs, databases)
  {
    if t in databases[0] {
      var k :| 0 <= k < |databases[0]| && databases[0][k] == t;
      assert DumpTables(databases[0])[k] == DumpTable(t);
      assert DumpTable(t) in DatabaseTasks(lockTables, flushLogs, databases[0]);
    } else {
      var db :| db in databases && t in db;
      assert db in databases[1..];
      PlanHasAll(lockTables, flushLogs, databases[1..], t);
    }
  }

  /** A table asked for has been dumped or will be. */
  ghost predicate WillDump(job: Job, s: State, t: TableName) {
    && (s.client.phase in {Dump, Purge, Finished} ==> t in s.client.dumped || DumpTable(t) in s.client.todo)
    && (s.client.phase in {Purge, Finished} ==> s.client.todo == [])
  }

  lemma ClientWillDump(job: Job, s: State, t: TableName)
    requires |s.server.files| >= 1 && Asked(job, t) && WillDump(job, s, t)
    ensures WillDump(job, ClientStep(job, s), t)
  {
    if s.client.phase == Unlock {
      PlanHasAll(job.opts.lockTables, s.client.flushLogs, job.databases, t);
    } else if s.client.phase == Dump && s.client.todo != [] {
      var todo := s.client.todo;
      assert todo == [todo[0]] + todo[1..];
    }
  }

  lemma {:induction false} RunWillDump(base: Database, job: Job, s0: State, acts: seq<Action>, t: TableName)
    requires Initial(base, job, s0) && Asked(job, t)
    ensures WillDump(job, Run(job, s0, acts), t)
  {
    if acts != [] {
      var front := acts[..|acts| - 1];
      RunWillDump(base, job, s0, front, t);
      if acts[|acts| - 1] == Proceed {
        ClientWillDump(job, Run(job, s0, front), t);
      }
    }
  }

  /** A finished dump holds every table asked for, whatever the options. */
  lemma FinishedDumpIsComplete(base: Database, job: Job, s0: State, acts: seq<Action>, t: TableName)
    requires Initial(base, job, s0) && Asked(job, t)
    ensures var s := Run(job, s0, acts); s.client.phase == Finished ==> t in s.client.dumped
  {
    RunWillDump(base, job, s0, acts, t);
  }

  /**
    Also without --master-data, a dump for which --single-transaction, --lock-all-tables or
    --dump-slave was given is the copy of one moment: some log position produces all of it.
   */
  lemma DumpIsOneMoment(raw: Options, base: Database, job: Job, s0: State, acts: seq<Action>)
    requires Normalise(raw) == Success(job.opts) && AsksOneMoment(raw)
    requires Initial(base, job, s0)
    ensures var s := Run(job, s0, acts);
      s.client.phase != Failed ==>
        exists p :: ValidPosition(s.server.files, p)
                    && forall t :: t in s.client.dumped && Covered(job.opts, s.server, t) ==>
                         s.client.dumped[t] == Rows0(Replay(base, LogBefore(s.server.files, p)), t)
  {
    NormaliseEstablishes(raw);
    NormaliseIsExact(raw);
    RunKeepsInv(base, job, s0, acts);
    var s := Run(job, s0, acts);
    MasterStatusIsWholeLog(s.server.files);
    var p := if job.opts.singleTransaction && s.server.snapshot.Some?
             then s.server.snapshot.value.pos else MasterStatus(s.server.files);
    assert ValidPosition(s.server.files, p);
  }

  /**
    Point-in-time recovery: if the dumped tables are all the tables there were, loading the
    dump and replaying the log from the written position gives the server's present data.
   */
  lemma RestoreAndReplay(raw: Options, base: Database, job: Job, s0: State, acts: seq<Action>)
    requires Normalise(raw) == Success(job.opts) && AsksPosition(raw)
    requires Initial(base, job, s0)
    ensures var s := Run(job, s0, acts);
      s.client.phase == Finished && (forall t :: t in s.client.dumped ==> Covered(job.opts, s.server, t)) ==>
        && s.client.position.Some?
        && ValidPosition(s.server.files, s.client.position.value)
        && var p := s.client.position.value;
           Replay(base, LogBefore(s.server.files, p)).Keys == s.client.dumped.Keys ==>
             Replay(s.client.dumped, LogFrom(s.server.files, p)) == s.server.data
  {
    NormaliseEstablishes(raw);
    NormaliseIsExact(raw);
    RunKeepsInv(base, job, s0, acts);
    var s := Run(job, s0, acts);
    if s.client.phase == Finished && (forall t :: t in s.client.dumped ==> Covered(job.opts, s.server, t)) {
      var p := s.client.position.value;
      var dumpPoint := Replay(base, LogBefore(s.server.files, p));
      if dumpPoint.Keys == s.client.dumped.Keys {
        assert s.client.dumped == dumpPoint;
        LogSplit(s.server.files, p);
        ReplayAppend(base, LogBefore(s.server.files, p), LogFrom(s.server.files, p));
      }
    }
  }

  /**
    Recovery of the dumped tables alone, whatever else the server has: replaying the log
    from the written position on the dump gives their present rows, if what was logged
    since touches them without reading other tables.
   */
  lemma RestoreTables(raw: Options, base: Database, job: Job, s0: State, acts: seq<Action>)
    requires Normalise(raw) == Success(job.opts) && AsksPosition(raw)
    requires Initial(base, job, s0)
    ensures var s := Run(job, s0, acts);
      s.client.phase == Finished && s.client.dumped != map[]
      && (forall t :: t in s.client.dumped ==> Covered(job.opts, s.server, t)) ==>
        && s.client.position.Some?
        && ValidPosition(s.server.files, s.client.position.value)
        && var log := LogFrom(s.server.files, s.client.position.value);
           (forall trx :: trx in log ==> Local(trx, s.client.dumped.Keys)) ==>
             Agree(Replay(s.client.dumped, log), s.server.data, s.client.dumped.Keys)
  {
    NormaliseEstablishes(raw);
    NormaliseIsExact(raw);
    RunKeepsInv(base, job, s0, acts);
    PositionMatchesDump(raw, base, job, s0, acts);
    var s := Run(job, s0, acts);
    if s.client.phase == Finished && s.client.dumped != map[]
       && (forall t :: t in s.client.dumped ==> Covered(job.opts, s.server, t))
    {
      var p := s.client.position.value;
      var before, log := LogBefore(s.server.files, p), LogFrom(s.server.files, p);
      LogSplit(s.server.files, p);
      ReplayAppend(base, before, log);
      if forall trx :: trx in log ==> Local(trx, s.client.dumped.Keys) {
        ReplayLocal(s.client.dumped, Replay(base, before), log, s.client.dumped.Keys);
      }
    }
  }

  // ---------------------------------------------------------------- flushing and purging

  /** Flushing the logs comes first, and the purge goes up to the log named then. */
  ghost predicate FlushInv(job: Job, s0: State, s: State) {
    var o, c, srv := job.opts, s.client, s.server;
    var done := Rank(c.phase) >= 3 && c.phase != Failed;
    && |srv.files| >= |s0.server.files| >= 1 && (Rank(c.phase) <= 2 ==> c.flushLogs == o.flushLogs)
    && (Rank(c.phase) <= 4 ==> srv.snapshot == None) && (Rank(c.phase) <= 5 ==> c.position == None)
    && (done && (o.flushLogs || o.deleteMasterLogs) ==> |srv.files| > |s0.server.files|)
    && (o.deleteMasterLogs && Rank(c.phase) >= 4 && c.phase != Failed ==>
          c.logName.Some? && c.logName.value >= |s0.server.files|)
    && (o.flushLogs || o.deleteMasterLogs ==>
          && (srv.snapshot.Some? ==> srv.snapshot.value.pos.file >= |s0.server.files|)
          && (c.position.Some? ==> c.position.value.file >= |s0.server.files|))
    && (o.deleteMasterLogs && c.phase == Finished ==> srv.purged >= c.logName.value)
  }

  lemma SetupKeepsFlush(job: Job, s0: State, s: State)
    requires Normalised(job.opts) && Blocking(job.opts) && FlushInv(job, s0, s) && Rank(s.client.phase) <= 3
    ensures FlushInv(job, s0, ClientStep(job, s))
  {
  }

  lemma ClientKeepsFlush(job: Job, s0: State, s: State)
    requires Normalised(job.opts) && Blocking(job.opts) && FlushInv(job, s0, s) && Rank(s.client.phase) > 3
    ensures FlushInv(job, s0, ClientStep(job, s))
  {
    hide DumpPlan, Select;
  }

  lemma StepKeepsFlush(job: Job, s0: State, s: State, a: Action)
    requires Normalised(job.opts) && Blocking(job.opts) && FlushInv(job, s0, s)
    ensures FlushInv(job, s0, Step(job, s, a))
  {
    hide ClientStep;
    if a == Proceed {
      if Rank(s.client.phase) <= 3 { SetupKeepsFlush(job, s0, s); } else { ClientKeepsFlush(job, s0, s); }
    }
  }

  lemma {:induction false} RunKeepsFlush(base: Database, job: Job, s0: State, acts: seq<Action>)
    requires Normalised(job.opts) && Blocking(job.opts) && Initial(base, job, s0)
    ensures FlushInv(job, s0, Run(job, s0, acts))
  {
    hide FlushInv, Step;
    if acts == [] {
      InitialFlush(base, job, s0);
    } else {
      var front := acts[..|acts| - 1];
      InitialFlush(base, job, s0);
      RunKeepsFlush(base, job, s0, front);
      StepKeepsFlush(job, s0, Run(job, s0, front), acts[|acts| - 1]);
    }
  }

  lemma InitialFlush(base: Database, job: Job, s0: State)
    requires Initial(base, job, s0)
    ensures FlushInv(job, s0, s0) && |s0.server.files| >= 1
  {
  }

  /**
    --delete-master-logs: when mysqldump has finished, the logs are purged up to the one that it
    started itself, so every log that was there before is gone.
   */
  lemma PurgeReachesNewLog(raw: Options, base: Database, job: Job, s0: State, acts: seq<Action>)
    requires Normalise(raw) == Success(job.opts) && raw.deleteMasterLogs && !raw.slaveData
    requires Initial(base, job, s0)
    ensures var s := Run(job, s0, acts);
      s.client.phase == Finished ==>
        s.client.logName.Some? && s.server.purged >= s.client.logName.value >= |s0.server.files|
  {
    NormaliseEstablishes(raw);
    NormaliseIsExact(raw);
    RunKeepsFlush(base, job, s0, acts);
  }

  /** --flush-logs: the written position is in a log that was started by mysqldump or later. */
  lemma PositionIsInNewLog(raw: Options, base: Database, job: Job, s0: State, acts: seq<Action>)
    requires Normalise(raw) == Success(job.opts) && AsksPosition(raw) && (raw.flushLogs || raw.deleteMasterLogs)
    requires Initial(base, job, s0)
    ensures var s := Run(job, s0, acts);
      s.client.position.Some? ==> s.client.position.value.file >= |s0.server.files|
  {
    NormaliseEstablishes(raw);
    NormaliseIsExact(raw);
    RunKeepsFlush(base, job, s0, acts);
  }

  // ---------------------------------------------------------------- how long others wait

  ghost predicate LockUse(job: Job, s: State) {
    var o, c, srv := job.opts, s.client, s.server;
    && (Rank(c.phase) >= 7 && c.phase != Failed ==> !srv.globalLock)
    && (o.masterData != Off && 1 <= Rank(c.phase) <= 6 ==> c.consistentPos == job.hasSnapshotStatus)
    && (Rank(c.phase) <= 2 ==> c.flushLogs == o.flushLogs)
    && ((o.masterData == Off || job.hasSnapshotStatus) && !o.flushLogs && c.phase != Failed ==> !srv.globalLock)
  }

  lemma ClientLockUse(job: Job, s: State)
    requires Normalised(job.opts) && job.opts.singleTransaction && |s.server.files| >= 1 && LockUse(job, s)
    requires forall task :: task in s.client.todo ==> task.DumpTable?
    ensures LockUse(job, ClientStep(job, s))
  {
    if s.client.todo != [] { assert s.client.todo[0] in s.client.todo; }
  }

  lemma {:induction false} RunLockUse(base: Database, job: Job, s0: State, acts: seq<Action>)
    requires Normalised(job.opts) && job.opts.singleTransaction && Initial(base, job, s0)
    ensures LockUse(job, Run(job, s0, acts))
  {
    if acts != [] {
      var front := acts[..|acts| - 1];
      RunLockUse(base, job, s0, front);
      RunKeepsInv(base, job, s0, front);
      if acts[|acts| - 1] == Proceed { ClientLockUse(job, Run(job, s0, front)); }
    }
  }

  /**
    --single-transaction: the tables are read without the global lock. It is not taken at all
    unless the logs are flushed or a position is asked for that the server does not publish.
   */
  lemma SnapshotNeedsNoLock(raw: Options, base: Database, job: Job, s0: State, acts: seq<Action>)
    requires Normalise(raw) == Success(job.opts) && raw.singleTransaction && Initial(base, job, s0)
    ensures var s := Run(job, s0, acts);
      && (s.client.phase in {Dump, Purge, Finished} ==> !s.server.globalLock)
      && (!raw.flushLogs && (AsksPosition(raw) ==> job.hasSnapshotStatus) && s.client.phase != Failed ==>
            !s.server.globalLock)
  {
    NormaliseEstablishes(raw);
    NormaliseIsExact(raw);
    RunLockUse(base, job, s0, acts);
  }

  // ---------------------------------------------------------------- locking database by database

  /** The dumped tables of a database are those of one log position. */
  ghost predicate OneMoment(base: Database, s: State, db: seq<TableName>) {
    exists p :: MomentOf(base, s, db, p)
  }

  ghost predicate MomentOf(base: Database, s: State, db: seq<TableName>, p: Position) {
    && ValidPosition(s.server.files, p)
    && forall t :: t in db ==>
         t in s.client.dumped && s.client.dumped[t] == Rows0(Replay(base, LogBefore(s.server.files, p)), t)
  }

  /** How far the dump has come: k databases are done, and n statements of the next one. */
  ghost predicate AtTask(job: Job, todo: seq<Task>, flushLogs: bool, k: nat, n: nat) {
    if k >= |job.databases| then k == |job.databases| && n == 0 && todo == []
    else
      var tasks := DatabaseTasks(true, flushLogs, job.databases[k]);
      n < |tasks| && todo == tasks[n..] + DumpPlan(true, flushLogs, job.databases[k + 1..])
  }

  /** The number of tables of a database dumped by its first n statements. */
  function TablesDone(flushLogs: bool, db: seq<TableName>, n: nat): nat {
    var head := (if db != [] then 1 else 0) + (if flushLogs then 1 else 0);
    if n <= head then 0 else if n - head <= |db| then n - head else |db|
  }

  /** The current database is locked, and what was dumped of it is still the server's data. */
  ghost predicate Locked(s: State, db: seq<TableName>, done: nat) {
    && s.server.tableLocks == (set t | t in db)
    && forall i :: 0 <= i < done && i < |db| ==>
         db[i] in s.client.dumped && s.client.dumped[db[i]] == Rows0(s.server.data, db[i])
  }

  ghost predicate PlainServer(base: Database, s: Server) {
    |s.files| >= 1 && s.data == Replay(base, Concat(s.files)) && s.snapshot == None && !s.globalLock
  }

  ghost predicate DatabaseInv(base: Database, job: Job, s: State, k: nat, n: nat) {
    && PlainServer(base, s.server)
    && (Rank(s.client.phase) <= 6 ==> s.client.flushLogs == job.opts.flushLogs && s.server.tableLocks == {})
    && (s.client.phase == Dump ==>
          && AtTask(job, s.client.todo, s.client.flushLogs, k, n)
          && (forall d :: 0 <= d < k ==> OneMoment(base, s, job.databases[d]))
          && (if n == 0 then s.server.tableLocks == {}
              else Locked(s, job.databases[k], TablesDone(s.client.flushLogs, job.databases[k], n))))
    && (s.client.phase in {Purge, Finished} ==>
          forall d :: 0 <= d < |job.databases| ==> OneMoment(base, s, job.databases[d]))
  }

  /** No table is in two of the databases. */
  predicate Disjoint(databases: seq<seq<TableName>>) {
    forall i, j, t :: 0 <= i < j < |databases| && t in databases[i] ==> t !in databases[j]
  }

  lemma MomentStays(base: Database, s: State, s': State, db: seq<TableName>)
    requires OneMoment(base, s, db)
    requires forall p :: ValidPosition(s.server.files, p) ==>
               ValidPosition(s'.server.files, p) && LogBefore(s'.server.files, p) == LogBefore(s.server.files, p)
    requires forall t :: t in db && t in s.client.dumped ==>
               t in s'.client.dumped && s'.client.dumped[t] == s.client.dumped[t]
    ensures OneMoment(base, s', db)
  {
    var p :| MomentOf(base, s, db, p);
    assert MomentOf(base, s', db, p);
  }

  lemma LockedStays(s: State, s': State, db: seq<TableName>, done: nat)
    requires Locked(s, db, done) && s'.client.dumped == s.client.dumped && s'.server.tableLocks == s.server.tableLocks
    requires forall t :: t in s.server.tableLocks ==> Rows0(s'.server.data, t) == Rows0(s.server.data, t)
    ensures Locked(s', db, done)
  {
    assert forall i :: 0 <= i < |db| ==> db[i] in s.server.tableLocks;
  }

  lemma OthersKeepServer(base: Database, s: Server, s': Server, a: Action)
    requires PlainServer(base, s)
    requires match a case OtherCommits(trx) => s' == Commit(s, trx) case OtherRotates => s' == Rotate(s) case _ => false
    ensures PlainServer(base, s') && s'.tableLocks == s.tableLocks
    ensures forall t :: t in s.tableLocks ==> Rows0(s'.data, t) == Rows0(s.data, t)
    ensures forall p :: ValidPosition(s.files, p) ==>
              ValidPosition(s'.files, p) && LogBefore(s'.files, p) == LogBefore(s.files, p)
  {
    RotateKeepsLog(s);
    if a.OtherCommits? && CanCommit(s, a.trx) {
      CommitExtendsLog(s, a.trx);
      var log := Concat(s.files);
      assert (log + [a.trx])[..|log|] == log;
    }
  }

  /** Another client's commit or rotation. */
  lemma OthersKeepDatabases(base: Database, job: Job, s: State, a: Action, k: nat, n: nat)
    requires DatabaseInv(base, job, s, k, n) && (a.OtherCommits? || a.OtherRotates?)
    ensures DatabaseInv(base, job, Step(job, s, a), k, n)
  {
    hide OneMoment, TablesDone, Locked, DatabaseTasks, DumpPlan, PlainServer, Commit, Rotate, LogBefore;
    ServerFiles(base, s.server);
    var s' := Step(job, s, a);
    OthersKeepServer(base, s.server, s'.server, a);
    if s.client.phase == Dump && n > 0 {
      LockedStays(s, s', job.databases[k], TablesDone(s.client.flushLogs, job.databases[k], n));
    }
    forall d | 0 <= d < |job.databases| && OneMoment(base, s, job.databases[d])
      ensures OneMoment(base, s', job.databases[d])
    {
      MomentStays(base, s, s', job.databases[d]);
    }
  }

  /** The end of a database: what is locked is one moment. */
  lemma DatabaseDone(base: Database, s: State, db: seq<TableName>)
    requires PlainServer(base, s.server) && Locked(s, db, |db|)
    ensures OneMoment(base, s, db)
  {
    MasterStatusIsWholeLog(s.server.files);
    var p := MasterStatus(s.server.files);
    forall t | t in db
      ensures t in s.client.dumped && s.client.dumped[t] == Rows0(s.server.data, t)
    {
      var i :| 0 <= i < |db| && db[i] == t;
    }
    assert MomentOf(base, s, db, p);
  }

  /** Which statement is next. */
  lemma TaskAt(flushLogs: bool, db: seq<TableName>, n: nat)
    requires n < |DatabaseTasks(true, flushLogs, db)|
    ensures var tasks, done := DatabaseTasks(true, flushLogs, db), TablesDone(flushLogs, db, n);
      var head := (if db != [] then 1 else 0) + (if flushLogs then 1 else 0);
      && |tasks| == head + |db| + 1
      && tasks[n] == (if n == 0 && db != [] then LockTables(set t | t in db)
                      else if n < head then RefreshLogs
                      else if n < head + |db| then DumpTable(db[n - head]) else UnlockTables)
      && (head <= n < head + |db| ==> done == n - head && TablesDone(flushLogs, db, n + 1) == done + 1)
      && (n < head ==> done == 0 && TablesDone(flushLogs, db, n + 1) == 0)
      && (n == head + |db| ==> done == |db|)
  {
  }

  /** One statement on: within the database, or to the next one. */
  lemma NextTask(job: Job, todo: seq<Task>, flushLogs: bool, k: nat, n: nat)
    requires AtTask(job, todo, flushLogs, k, n) && todo != []
    ensures k < |job.databases|
    ensures var tasks := DatabaseTasks(true, flushLogs, job.databases[k]);
      && n < |tasks| && todo[0] == tasks[n]
      && (if n + 1 < |tasks| then AtTask(job, todo[1..], flushLogs, k, n + 1)
          else AtTask(job, todo[1..], flushLogs, k + 1, 0))
  {
    var tasks := DatabaseTasks(true, flushLogs, job.databases[k]);
    var later := DumpPlan(true, flushLogs, job.databases[k + 1..]);
    assert todo[1..] == tasks[n + 1..] + later;
    if n + 1 == |tasks| {
      assert todo[1..] == later;
      if k + 1 < |job.databases| {
        var next := DatabaseTasks(true, flushLogs, job.databases[k + 1]);
        assert job.databases[k + 1..][0] == job.databases[k + 1];
        assert job.databases[k + 1..][1..] == job.databases[k + 2..];
        assert next[0..] == next;
        TaskAt(flushLogs, job.databases[k + 1], 0);
      }
    }
  }

  /** What one statement inside a database does to its tables. */
  lemma TaskKeepsLocked(s: State, db: seq<TableName>, flushLogs: bool, n: nat)
    requires |s.server.files| >= 1 && s.server.snapshot == None
    requires n + 1 < |DatabaseTasks(true, flushLogs, db)|
    requires if n == 0 then s.server.tableLocks == {} else Locked(s, db, TablesDone(flushLogs, db, n))
    ensures Locked(RunTask(s, DatabaseTasks(true, flushLogs, db)[n]), db, TablesDone(flushLogs, db, n + 1))
  {
    hide TablesDone, DatabaseTasks;
    TaskAt(flushLogs, db, n);
    EmptyIsUnlocked(s, db);
  }

  lemma TaskKeepsServer(base: Database, s: State, task: Task)
    requires PlainServer(base, s.server) && !task.UnlockTables?
    ensures PlainServer(base, RunTask(s, task).server)
    ensures forall p :: ValidPosition(s.server.files, p) ==>
      var files := RunTask(s, task).server.files;
      ValidPosition(files, p) && LogBefore(files, p) == LogBefore(s.server.files, p)
  {
    RotateKeepsLog(s.server);
  }

  /** A statement inside a database leaves the earlier ones alone. */
  lemma TaskKeepsMoments(base: Database, job: Job, s: State, k: nat, task: Task, d: nat)
    requires PlainServer(base, s.server) && Disjoint(job.databases) && d < k < |job.databases|
    requires !task.UnlockTables? && (task.DumpTable? ==> task.table in job.databases[k])
    requires OneMoment(base, s, job.databases[d])
    ensures OneMoment(base, RunTask(s, task), job.databases[d])
  {
    hide OneMoment, LogBefore, PlainServer;
    TaskKeepsServer(base, s, task);
    ServerFiles(base, s.server);
    MomentStays(base, s, RunTask(s, task), job.databases[d]);
  }

  lemma ServerFiles(base: Database, s: Server)
    requires PlainServer(base, s)
    ensures |s.files| >= 1 && s.snapshot == None
  {
  }

  lemma SameMoments(base: Database, s: State, s': State, db: seq<TableName>)
    requires s'.server == s.server && s'.client.dumped == s.client.dumped
    ensures OneMoment(base, s, db) ==> OneMoment(base, s', db)
  {
    if OneMoment(base, s, db) { MomentStays(base, s, s', db); }
  }

  /** A statement inside a database. */
  lemma InsideDatabase(base: Database, job: Job, s: State, k: nat, n: nat)
    requires DatabaseInv(base, job, s, k, n) && s.client.phase == Dump && s.client.todo != [] && Disjoint(job.databases)
    requires k < |job.databases| && n + 1 < |DatabaseTasks(true, s.client.flushLogs, job.databases[k])|
    ensures DatabaseInv(base, job, ClientStep(job, s), k, n + 1)
  {
    hide OneMoment, AtTask, TablesDone, DatabaseTasks, Locked, RunTask, PlainServer, Disjoint;
    var db, task := job.databases[k], s.client.todo[0];
    NextTask(job, s.client.todo, s.client.flushLogs, k, n);
    TaskAt(s.client.flushLogs, db, n);
    ServerFiles(base, s.server);
    TaskKeepsLocked(s, db, s.client.flushLogs, n);
    TaskKeepsServer(base, s, task);
    TaskKeepsClient(s, task);
    var s1, s' := RunTask(s, task), ClientStep(job, s);
    LockedStays(s1, s', db, TablesDone(s.client.flushLogs, db, n + 1));
    forall d | 0 <= d < k
      ensures OneMoment(base, s', job.databases[d])
    {
      TaskKeepsMoments(base, job, s, k, task, d);
      SameMoments(base, s1, s', job.databases[d]);
    }
  }

  lemma TaskKeepsClient(s: State, task: Task)
    requires |s.server.files| >= 1
    ensures var c := RunTask(s, task).client; c == s.client.(dumped := c.dumped)
  {
  }

  lemma EmptyIsUnlocked(s: State, db: seq<TableName>)
    ensures db == [] && s.server.tableLocks == {} ==> Locked(s, db, 0)
    ensures s.server.tableLocks == (set t | t in db) ==> Locked(s, db, 0)
  {
  }

  /** UNLOCK TABLES at the end of a database. */
  lemma EndOfDatabase(base: Database, job: Job, s: State, k: nat, n: nat)
    requires DatabaseInv(base, job, s, k, n) && s.client.phase == Dump && s.client.todo != []
    requires k < |job.databases| && n + 1 == |DatabaseTasks(true, s.client.flushLogs, job.databases[k])|
    ensures DatabaseInv(base, job, ClientStep(job, s), k + 1, 0)
  {
    hide OneMoment, AtTask, TablesDone, DatabaseTasks, DumpPlan;
    var s', db := ClientStep(job, s), job.databases[k];
    NextTask(job, s.client.todo, s.client.flushLogs, k, n);
    TaskAt(s.client.flushLogs, db, n);
    EmptyIsUnlocked(s, db);
    DatabaseDone(base, s, db);
    forall d | 0 <= d < k + 1
      ensures OneMoment(base, s', job.databases[d])
    {
      MomentStays(base, s, s', job.databases[d]);
    }
  }

  /** The start of the dump. */
  lemma DumpStarts(job: Job, flushLogs: bool)
    ensures AtTask(job, DumpPlan(true, flushLogs, job.databases), flushLogs, 0, 0)
  {
    if job.databases != [] {
      var tasks := DatabaseTasks(true, flushLogs, job.databases[0]);
      assert tasks[0..] == tasks;
      TaskAt(flushLogs, job.databases[0], 0);
    }
  }

  /** Only --lock-tables. */
  predicate LocksDatabases(o: Options) {
    Normalised(o) && !Blocking(o) && o.lockTables
  }

  lemma SetupKeepsDatabases(base: Database, job: Job, s: State)
    requires LocksDatabases(job.opts) && DatabaseInv(base, job, s, 0, 0) && Rank(s.client.phase) <= 6
    ensures DatabaseInv(base, job, ClientStep(job, s), 0, 0)
  {
    DumpStarts(job, s.client.flushLogs);
  }

  lemma LastKeepsDatabases(base: Database, job: Job, s: State, k: nat, n: nat)
    requires LocksDatabases(job.opts) && DatabaseInv(base, job, s, k, n)
    requires s.client.phase in {Purge, Finished, Failed} || (s.client.phase == Dump && s.client.todo == [])
    ensures DatabaseInv(base, job, ClientStep(job, s), k, n)
  {
    hide OneMoment, DatabaseTasks, DumpPlan, TablesDone;
    var s' := ClientStep(job, s);
    if s.client.phase == Dump { TodoEmpty(job, s.client.flushLogs, k, n); }
    forall d | 0 <= d < |job.databases| && OneMoment(base, s, job.databases[d])
      ensures OneMoment(base, s', job.databases[d])
    {
      MomentStays(base, s, s', job.databases[d]);
    }
  }

  lemma TodoEmpty(job: Job, flushLogs: bool, k: nat, n: nat)
    requires AtTask(job, [], flushLogs, k, n)
    ensures k == |job.databases|
  {
  }

  lemma {:induction false} RunKeepsDatabases(base: Database, job: Job, s0: State, acts: seq<Action>)
      returns (k: nat, n: nat)
    requires LocksDatabases(job.opts) && Disjoint(job.databases) && Initial(base, job, s0)
    ensures DatabaseInv(base, job, Run(job, s0, acts), k, n)
    ensures Rank(Run(job, s0, acts).client.phase) <= 6 ==> k == 0 && n == 0
  {
    hide OneMoment, AtTask, TablesDone, DatabaseTasks, DumpPlan, Locked, Disjoint;
    k, n := 0, 0;
    if acts != [] {
      var front, a := acts[..|acts| - 1], acts[|acts| - 1];
      k, n := RunKeepsDatabases(base, job, s0, front);
      var s := Run(job, s0, front);
      match a {
        case OtherCommits(_) => OthersKeepDatabases(base, job, s, a, k, n);
        case OtherRotates => OthersKeepDatabases(base, job, s, a, k, n);
        case Fail =>
        case Proceed => k, n := ProceedKeepsDatabases(base, job, s, k, n);
      }
    }
  }

  lemma ProceedKeepsDatabases(base: Database, job: Job, s: State, k: nat, n: nat) returns (k': nat, n': nat)
    requires LocksDatabases(job.opts) && Disjoint(job.databases) && DatabaseInv(base, job, s, k, n)
    requires Rank(s.client.phase) <= 6 ==> k == 0 && n == 0
    ensures DatabaseInv(base, job, ClientStep(job, s), k', n')
    ensures Rank(ClientStep(job, s).client.phase) <= 6 ==> k' == 0 && n' == 0
  {
    hide DatabaseInv, DatabaseTasks, DumpPlan, Disjoint;
    k', n' := k, n;
    InvServer(base, job, s, k, n);
    if Rank(s.client.phase) <= 6 {
      SetupKeepsDatabases(base, job, s);
    } else if s.client.phase == Dump && s.client.todo != [] {
      NextTask(job, s.client.todo, s.client.flushLogs, k, n);
      if n + 1 < |DatabaseTasks(true, s.client.flushLogs, job.databases[k])| {
        InsideDatabase(base, job, s, k, n);
        n' := n + 1;
      } else {
        EndOfDatabase(base, job, s, k, n);
        k', n' := k + 1, 0;
      }
    } else {
      LastKeepsDatabases(base, job, s, k, n);
    }
  }

  lemma InvServer(base: Database, job: Job, s: State, k: nat, n: nat)
    requires DatabaseInv(base, job, s, k, n)
    ensures |s.server.files| >= 1
    ensures s.client.phase == Dump ==> AtTask(job, s.client.todo, s.client.flushLogs, k, n)
  {
  }

  /**
    --lock-tables, the default: whatever the other clients do, the tables of each database are
    dumped as they were together at one moment, different databases perhaps at different ones.
   */
  lemma EachDatabaseIsOneMoment(raw: Options, base: Database, job: Job, s0: State, acts: seq<Action>, d: nat)
    requires Normalise(raw) == Success(job.opts) && raw.lockTables && !AsksOneMoment(raw)
    requires Initial(base, job, s0) && Disjoint(job.databases) && d < |job.databases|
    ensures var s := Run(job, s0, acts); s.client.phase == Finished ==> OneMoment(base, s, job.databases[d])
  {
    hide OneMoment, AtTask, Locked;
    NormaliseEstablishes(raw);
    NormaliseIsExact(raw);
    var k, n := RunKeepsDatabases(base, job, s0, acts);
  }

  // ---------------------------------------------------------------- exact conditions

  /** The dump of one table agrees with the written position. */
  ghost predicate TableMatches(base: Database, s: State, t: TableName) {
    t in s.client.dumped ==>
      && s.client.position.Some?
      && ValidPosition(s.server.files, s.client.position.value)
      && s.client.dumped[t] == Rows0(Replay(base, LogBefore(s.server.files, s.client.position.value)), t)
  }

  lemma RunStep(job: Job, s0: State, acts: seq<Action>, a: Action)
    requires |s0.server.files| >= 1
    ensures Run(job, s0, acts + [a]) == Step(job, Run(job, s0, acts), a)
  {
    assert (acts + [a])[..|acts|] == acts;
  }

  lemma {:induction false} RunKeepsEngines(job: Job, s0: State, acts: seq<Action>)
    requires |s0.server.files| >= 1
    ensures Run(job, s0, acts).server.transactional == s0.server.transactional
  {
    if acts != [] {
      RunKeepsEngines(job, s0, acts[..|acts| - 1]);
    }
  }

  /** How far the setup has come when nobody else was active. */
  ghost predicate Alone(job: Job, s0: State, s: State) {
    var o, c, srv := job.opts, s.client, s.server;
    && |srv.files| >= 1 && srv.data == s0.server.data && Concat(srv.files) == Concat(s0.server.files)
    && srv.tableLocks == {} && c.dumped == map[] && Rank(c.phase) <= 7
    && (o.lockAllTables && !o.singleTransaction && Rank(c.phase) >= 2 ==> srv.globalLock)
    && (o.singleTransaction && Rank(c.phase) >= 7 ==> !srv.globalLock)
    && (!o.singleTransaction ==> srv.snapshot == None)
    && (Rank(c.phase) >= 3 ==> !c.flushLogs)
    && (srv.snapshot.Some? ==>
          ValidPosition(srv.files, srv.snapshot.value.pos)
          && LogBefore(srv.files, srv.snapshot.value.pos) == Concat(srv.files))
    && (Rank(c.phase) >= 6 ==>
          c.position.Some? && ValidPosition(srv.files, c.position.value)
          && LogBefore(srv.files, c.position.value) == Concat(srv.files))
    && (c.phase == Dump ==> c.todo == DumpPlan(o.lockTables, false, job.databases))
  }

  lemma AloneFlush(job: Job, s0: State, s: State)
    requires job.opts.masterData != Off && Alone(job, s0, s) && s.client.phase == Flush
    ensures Alone(job, s0, ClientStep(job, s)) && ClientStep(job, s).client.phase == NameLog
  {
    RotateKeepsLog(s.server);
  }

  lemma AloneStep(job: Job, s0: State, s: State)
    requires job.opts.masterData != Off && Alone(job, s0, s) && Rank(s.client.phase) < 7
    ensures Alone(job, s0, ClientStep(job, s))
    ensures Rank(ClientStep(job, s).client.phase) == Rank(s.client.phase) + 1
  {
    match s.client.phase {
      case Probe | Lock | NameLog | Unlock =>
      case Flush => AloneFlush(job, s0, s);
      case Begin | WritePosition => MasterStatusIsWholeLog(s.server.files);
    }
  }

  function Proceeds(n: nat): (acts: seq<Action>)
    ensures |acts| == n
  {
    if n == 0 then [] else Proceeds(n - 1) + [Proceed]
  }

  lemma AloneStart(base: Database, job: Job, s0: State)
    requires Initial(base, job, s0)
    ensures Alone(job, s0, s0) && Rank(s0.client.phase) == 0 && Run(job, s0, []) == s0 && |s0.server.files| >= 1
  {
  }

  /** With nobody else active, n steps bring mysqldump to its n-th stage without a commit. */
  lemma {:induction false} AloneRun(base: Database, job: Job, s0: State, n: nat)
    requires job.opts.masterData != Off && Initial(base, job, s0) && n <= 7
    ensures var s := Run(job, s0, Proceeds(n)); Alone(job, s0, s) && Rank(s.client.phase) == n
  {
    hide Alone, ClientStep, Initial;
    AloneStart(base, job, s0);
    if n > 0 {
      AloneRun(base, job, s0, n - 1);
      RunStep(job, s0, Proceeds(n - 1), Proceed);
      AloneStep(job, s0, Run(job, s0, Proceeds(n - 1)));
    }
  }

  lemma {:induction false} RunMore(job: Job, s0: State, acts: seq<Action>, more: seq<Action>)
    requires |s0.server.files| >= 1
    ensures Run(job, s0, acts + more) == Run(job, Run(job, s0, acts), more)
    decreases |more|
  {
    if more == [] {
      assert acts + more == acts;
    } else {
      RunMore(job, s0, acts, more[..|more| - 1]);
      assert (acts + more)[..|acts + more| - 1] == acts + more[..|more| - 1];
    }
  }

  lemma RunOne(job: Job, s: State, a: Action)
    requires |s.server.files| >= 1
    ensures Run(job, s, [a]) == Step(job, s, a)
  {
    assert [a][..0] == [];
  }

  /** The client works off these tasks next. */
  ghost predicate Facing(s: State, tasks: seq<Task>, rest: seq<Task>) {
    && |s.server.files| >= 1 && s.client.phase == Dump && s.client.todo == tasks + rest
    && RefreshLogs !in tasks
  }

  /** What working off tasks leaves alone: the log, the data, the engines and the written position. */
  ghost predicate SameData(s: State, s': State) {
    && s'.server.files == s.server.files && s'.server.data == s.server.data
    && s'.server.transactional == s.server.transactional && s'.client.position == s.client.position
    && (s.server.snapshot == None ==> s'.server.snapshot == None)
  }

  /** One task. */
  lemma TaskStep(job: Job, s: State, task: Task, rest: seq<Task>)
    requires Facing(s, [task], rest)
    ensures var s' := ClientStep(job, s);
      && Facing(s', [], rest) && SameData(s, s')
      && (task.DumpTable? ==>
            s'.server == s.server && s'.client.dumped == s.client.dumped[task.table := Select(s.server, task.table)])
      && (task.UnlockTables? ==> !s'.server.globalLock && s'.server.tableLocks == {})
  {
    assert ([task] + rest)[1..] == rest == [] + rest;
    assert task in [task];
  }

  /** With nobody else active, the client works off a list of tasks. */
  lemma {:induction false} DrainTasks(job: Job, s: State, tasks: seq<Task>, rest: seq<Task>)
    requires Facing(s, tasks, rest)
    ensures var s' := Run(job, s, Proceeds(|tasks|)); Facing(s', [], rest) && SameData(s, s')
    decreases |tasks|
  {
    if tasks == [] {
      assert tasks + rest == rest == [] + rest;
    } else {
      var s1 := BeforeLast(job, s, tasks, rest);
      TaskStep(job, s1, tasks[|tasks| - 1], rest);
    }
  }

  /** Before its last task the client faces that task. */
  lemma {:induction false} BeforeLast(job: Job, s: State, tasks: seq<Task>, rest: seq<Task>) returns (s1: State)
    requires Facing(s, tasks, rest) && tasks != []
    ensures s1 == Run(job, s, Proceeds(|tasks| - 1)) && Facing(s1, [tasks[|tasks| - 1]], rest) && SameData(s, s1)
    ensures Run(job, s, Proceeds(|tasks|)) == ClientStep(job, s1)
    decreases |tasks|, 0
  {
    var n := |tasks| - 1;
    var front, last := tasks[..n], tasks[n];
    assert tasks + rest == front + ([last] + rest);
    assert last in tasks && forall task :: task in front ==> task in tasks;
    DrainTasks(job, s, front, [last] + rest);
    assert [] + ([last] + rest) == [last] + rest;
    s1 := Run(job, s, Proceeds(n));
    RunStep(job, s, Proceeds(n), Proceed);
  }

  /** Only tables that were asked for are dumped. */
  ghost predicate DumpsOnlyAsked(job: Job, s: State) {
    && (forall t :: t in s.client.dumped ==> Asked(job, t))
    && (forall t :: DumpTable(t) in s.client.todo ==> Asked(job, t))
  }

  lemma {:induction false} PlanIsAsked(lockTables: bool, flushLogs: bool, databases: seq<seq<TableName>>, t: TableName)
    requires DumpTable(t) in DumpPlan(lockTables, flushLogs, databases)
    ensures exists db :: db in databases && t in db
  {
    var first := DatabaseTasks(lockTables, flushLogs, databases[0]);
    if DumpTable(t) in first {
      assert DumpTable(t) in DumpTables(databases[0]);
      assert databases[0] in databases;
    } else {
      PlanIsAsked(lockTables, flushLogs, databases[1..], t);
      var db :| db in databases[1..] && t in db;
      assert db in databases;
    }
  }

  lemma ClientDumpsOnlyAsked(job: Job, s: State)
    requires |s.server.files| >= 1 && DumpsOnlyAsked(job, s)
    ensures DumpsOnlyAsked(job, ClientStep(job, s))
  {
    var s' := ClientStep(job, s);
    if s.client.phase == Unlock {
      forall t | DumpTable(t) in s'.client.todo
        ensures Asked(job, t)
      {
        PlanIsAsked(job.opts.lockTables, s.client.flushLogs, job.databases, t);
      }
    } else if s.client.phase == Dump && s.client.todo != [] {
      assert s.client.todo[0] in s.client.todo;
      assert forall task :: task in s'.client.todo ==> task in s.client.todo;
    }
  }

  lemma {:induction false} RunDumpsOnlyAsked(base: Database, job: Job, s0: State, acts: seq<Action>)
    requires Initial(base, job, s0)
    ensures DumpsOnlyAsked(job, Run(job, s0, acts))
  {
    if acts != [] {
      var front := acts[..|acts| - 1];
      RunDumpsOnlyAsked(base, job, s0, front);
      if acts[|acts| - 1] == Proceed {
        ClientDumpsOnlyAsked(job, Run(job, s0, front));
      }
    }
  }

  /** A transaction that changes one table. */
  function Touch(t: TableName): Trx {
    (db: Database) => db[t := Rows0(db, t) + ["x"]]
  }

  /**
    A commit that changes t, once mysqldump has written a position that names the data it
    sees: from then on, a dump of t that shows the server's own data is wrong.
   */
  lemma LateCommit(base: Database, job: Job, s: State, t: TableName)
    requires |s.server.files| >= 1 && !s.server.globalLock && s.server.tableLocks == {}
    requires s.client.position.Some? && ValidPosition(s.server.files, s.client.position.value)
    requires s.server.data == Replay(base, LogBefore(s.server.files, s.client.position.value))
    ensures var s' := Run(job, s, [OtherCommits(Touch(t))]);
      && s' == s.(server := Commit(s.server, Touch(t)))
      && s'.client == s.client && s'.server.data == Touch(t)(s.server.data)
      && ValidPosition(s'.server.files, s.client.position.value)
      && LogBefore(s'.server.files, s.client.position.value) == LogBefore(s.server.files, s.client.position.value)
      && Rows0(s'.server.data, t) != Rows0(Replay(base, LogBefore(s'.server.files, s.client.position.value)), t)
  {
    RunOne(job, s, OtherCommits(Touch(t)));
    CommitExtendsLog(s.server, Touch(t));
    assert |Rows0(s.server.data, t) + ["x"]| == |Rows0(s.server.data, t)| + 1;
  }

  /** Up to the dump of t, the plan of a dump without table locks only dumps. */
  lemma PlanUpTo(job: Job, t: TableName) returns (tasks: seq<Task>, rest: seq<Task>)
    requires Asked(job, t)
    ensures DumpPlan(false, false, job.databases) == tasks + rest
    ensures tasks != [] && tasks[|tasks| - 1] == DumpTable(t)
    ensures forall task :: task in tasks ==> task.DumpTable?
  {
    hide DumpPlan;
    var plan := DumpPlan(false, false, job.databases);
    PlanOnlyDumps(job.databases);
    PlanHasAll(false, false, job.databases, t);
    var k :| 0 <= k < |plan| && plan[k] == DumpTable(t);
    tasks, rest := plan[..k + 1], plan[k + 1..];
    assert forall task :: task in tasks ==> task in plan;
  }

  /** Once t is dumped from the server's own data after a late commit, the dump is wrong. */
  lemma DumpAfterCommit(base: Database, job: Job, s: State, t: TableName, tasks: seq<Task>, rest: seq<Task>)
    requires Facing(s, tasks, rest) && tasks != [] && tasks[|tasks| - 1] == DumpTable(t)
    requires t !in s.server.transactional || s.server.snapshot == None
    requires s.client.position.Some? && ValidPosition(s.server.files, s.client.position.value)
    requires Rows0(s.server.data, t) != Rows0(Replay(base, LogBefore(s.server.files, s.client.position.value)), t)
    ensures var s' := Run(job, s, Proceeds(|tasks|)); s'.client.phase != Failed && !TableMatches(base, s', t)
  {
    var s1 := BeforeLast(job, s, tasks, rest);
    TaskStep(job, s1, DumpTable(t), rest);
  }

  /** A commit between the snapshot and the reading of a table that ignores it. */
  lemma SnapshotRace(base: Database, job: Job, s0: State, t: TableName) returns (acts: seq<Action>)
    requires Normalised(job.opts) && job.opts.singleTransaction && job.opts.masterData != Off
    requires Initial(base, job, s0) && Asked(job, t) && t !in s0.server.transactional
    ensures Run(job, s0, acts).client.phase != Failed && !TableMatches(base, Run(job, s0, acts), t)
  {
    hide Run, Replay, LogBefore, TableMatches;
    AloneRun(base, job, s0, 7);
    RunKeepsEngines(job, s0, Proceeds(7));
    var s1 := Run(job, s0, Proceeds(7));
    var commit := [OtherCommits(Touch(t))];
    LateCommit(base, job, s1, t);
    var s2 := Run(job, s1, commit);
    var tasks, rest := PlanUpTo(job, t);
    DumpAfterCommit(base, job, s2, t, tasks, rest);
    RunMore(job, s0, Proceeds(7), commit);
    RunMore(job, s0, Proceeds(7) + commit, Proceeds(|tasks|));
    acts := Proceeds(7) + commit + Proceeds(|tasks|);
  }

  /**
    With --single-transaction and --master-data a table of the dump is right under every
    interleaving exactly when its engine honours the snapshot; other tables are not in it.
   */
  lemma SnapshotCoverageIsExact(raw: Options, base: Database, job: Job, s0: State, t: TableName)
    requires Normalise(raw) == Success(job.opts)
    requires raw.singleTransaction && AsksPosition(raw)
    requires Initial(base, job, s0)
    ensures (forall acts :: Run(job, s0, acts).client.phase != Failed ==> TableMatches(base, Run(job, s0, acts), t))
            <==> (Asked(job, t) ==> t in s0.server.transactional)
  {
    NormaliseEstablishes(raw);
    NormaliseIsExact(raw);
    if Asked(job, t) && t !in s0.server.transactional {
      var acts := SnapshotRace(base, job, s0, t);
    } else {
      forall acts | Run(job, s0, acts).client.phase != Failed
        ensures TableMatches(base, Run(job, s0, acts), t)
      {
        RunKeepsEngines(job, s0, acts);
        RunDumpsOnlyAsked(base, job, s0, acts);
        PositionMatchesDump(raw, base, job, s0, acts);
      }
    }
  }

  // ---------------------------------------------------------------- lock_tables under the global lock

  predicate LocksAll(o: Options) {
    o.lockAllTables && !o.singleTransaction && o.masterData != Off
  }

  /** No table is dumped once UNLOCK TABLES was sent. */
  predicate UnlocksLast(tasks: seq<Task>) {
    forall i, j :: 0 <= i < j < |tasks| && tasks[i].UnlockTables? ==> !tasks[j].DumpTable?
  }

  predicate NoDumps(tasks: seq<Task>) {
    forall task :: task in tasks ==> !task.DumpTable?
  }

  /** The global lock is held while tables are dumped, and holds the data at the written position. */
  ghost predicate LockedInv(base: Database, s: State) {
    var c, srv := s.client, s.server;
    && |srv.files| >= 1 && srv.data == Replay(base, Concat(srv.files)) && srv.snapshot == None
    && !c.consistentPos && RefreshLogs !in c.todo
    && (Rank(c.phase) >= 3 && c.phase != Failed ==> !c.flushLogs)
    && (2 <= Rank(c.phase) <= 6 ==> srv.globalLock)
    && (Rank(c.phase) <= 6 ==> c.todo == [] && c.dumped == map[])
    && (6 <= Rank(c.phase) <= 9 ==> c.position.Some?)
    && (c.phase == Dump ==> UnlocksLast(c.todo) && (srv.globalLock || NoDumps(c.todo)))
    && (c.position.Some? ==> ValidPosition(srv.files, c.position.value))
    && (c.position.Some? && 6 <= Rank(c.phase) <= 7 && srv.globalLock ==>
          LogBefore(srv.files, c.position.value) == Concat(srv.files))
    && (c.phase != Failed ==> forall t :: t in c.dumped ==> TableMatches(base, s, t))
  }

  lemma LockedCommit(base: Database, job: Job, s: State, trx: Trx)
    requires LocksAll(job.opts) && LockedInv(base, s)
    ensures LockedInv(base, Step(job, s, OtherCommits(trx)))
  {
    if CanCommit(s.server, trx) {
      CommitExtendsLog(s.server, trx);
      var log := Concat(s.server.files);
      assert (log + [trx])[..|log|] == log;
    }
  }

  lemma LockedRotate(base: Database, job: Job, s: State)
    requires LocksAll(job.opts) && LockedInv(base, s)
    ensures LockedInv(base, Step(job, s, OtherRotates))
  {
    RotateKeepsLog(s.server);
  }

  lemma LockedSetup(base: Database, job: Job, s: State)
    requires LocksAll(job.opts) && LockedInv(base, s) && Rank(s.client.phase) <= 5
    ensures LockedInv(base, ClientStep(job, s))
  {
    RotateKeepsLog(s.server);
    MasterStatusIsWholeLog(s.server.files);
  }

  lemma LockedDump(base: Database, job: Job, s: State)
    requires LocksAll(job.opts) && LockedInv(base, s) && s.client.phase == Dump
    ensures LockedInv(base, ClientStep(job, s))
  {
    var c := s.client;
    if c.todo != [] {
      var task, rest := c.todo[0], c.todo[1..];
      assert c.todo == [task] + rest && task in c.todo;
      assert forall other :: other in rest ==> other in c.todo;
      assert task.UnlockTables? ==> NoDumps(rest);
      if task.DumpTable? { assert s.server.globalLock; }
    }
  }

  lemma LockedClient(base: Database, job: Job, s: State)
    requires LocksAll(job.opts) && LockedInv(base, s)
    requires UnlocksLast(DumpPlan(job.opts.lockTables, false, job.databases))
    ensures LockedInv(base, ClientStep(job, s))
  {
    match s.client.phase {
      case Probe | Lock | Flush | NameLog | Begin | WritePosition => LockedSetup(base, job, s);
      case Unlock => PlanHasNoRefresh(job.opts.lockTables, job.databases);
      case Dump => LockedDump(base, job, s);
      case Purge | Finished | Failed =>
    }
  }

  lemma {:induction false} RunKeepsLocked(base: Database, job: Job, s0: State, acts: seq<Action>)
    requires LocksAll(job.opts) && Initial(base, job, s0)
    requires UnlocksLast(DumpPlan(job.opts.lockTables, false, job.databases))
    ensures LockedInv(base, Run(job, s0, acts))
  {
    if acts != [] {
      var front, a := acts[..|acts| - 1], acts[|acts| - 1];
      RunKeepsLocked(base, job, s0, front);
      var s := Run(job, s0, front);
      match a {
        case OtherCommits(trx) => LockedCommit(base, job, s, trx);
        case OtherRotates => LockedRotate(base, job, s);
        case Proceed => LockedClient(base, job, s);
        case Fail =>
      }
    }
  }

  lemma {:induction false} PlanHasNoRefresh(lockTables: bool, databases: seq<seq<TableName>>)
    ensures RefreshLogs !in DumpPlan(lockTables, false, databases)
  {
    if databases != [] { PlanHasNoRefresh(lockTables, databases[1..]); }
  }

  lemma {:induction false} PlanAppend(lockTables: bool, a: seq<seq<TableName>>, b: seq<seq<TableName>>)
    ensures DumpPlan(lockTables, false, a + b) == DumpPlan(lockTables, false, a) + DumpPlan(lockTables, false, b)
  {
    if a == [] {
      assert a + b == b;
    } else {
      assert (a + b)[1..] == a[1..] + b;
      PlanAppend(lockTables, a[1..], b);
    }
  }

  /** With lock_tables every database ends with UNLOCK TABLES. */
  lemma {:induction false} PlanEndsUnlocked(databases: seq<seq<TableName>>)
    requires databases != []
    ensures var plan := DumpPlan(true, false, databases); plan != [] && plan[|plan| - 1] == UnlockTables
  {
    if |databases| > 1 { PlanEndsUnlocked(databases[1..]); }
  }

  /** Databases without tables only unlock. */
  lemma {:induction false} EmptyDatabases(databases: seq<seq<TableName>>)
    requires forall k :: 0 <= k < |databases| ==> databases[k] == []
    ensures NoDumps(DumpPlan(true, false, databases))
  {
    if databases != [] {
      EmptyDatabases(databases[1..]);
      assert databases[0] == [];
    }
  }

  /** All tables are in the first database. */
  predicate OneDatabase(databases: seq<seq<TableName>>) {
    forall k :: 1 <= k < |databases| ==> databases[k] == []
  }

  lemma SafePlan(lockTables: bool, databases: seq<seq<TableName>>)
    requires !lockTables || OneDatabase(databases)
    ensures UnlocksLast(DumpPlan(lockTables, false, databases))
  {
    var plan := DumpPlan(lockTables, false, databases);
    if !lockTables {
      PlanOnlyDumps(databases);
      assert forall k :: 0 <= k < |plan| ==> plan[k] in plan;
    } else if databases != [] {
      EmptyDatabases(databases[1..]);
      var first, rest := DatabaseTasks(true, false, databases[0]), DumpPlan(true, false, databases[1..]);
      assert plan == first + rest;
      assert forall i :: 0 <= i < |first| - 1 ==> !first[i].UnlockTables?;
      assert forall j :: 0 <= j < |rest| ==> rest[j] in rest;
    }
  }

  /** From the start of the dumping stage: the databases before, a commit, the next database. */
  lemma UnlockedRace(base: Database, job: Job, s: State, before: seq<Task>, db: seq<TableName>, rest: seq<Task>)
      returns (acts: seq<Action>)
    requires Facing(s, before, DatabaseTasks(true, false, db) + rest) && db != []
    requires before != [] && before[|before| - 1] == UnlockTables && s.server.snapshot == None
    requires s.client.position.Some? && ValidPosition(s.server.files, s.client.position.value)
    requires s.server.data == Replay(base, LogBefore(s.server.files, s.client.position.value))
    ensures var s' := Run(job, s, acts); s'.client.phase != Failed && !TableMatches(base, s', db[0])
  {
    var next := DatabaseTasks(true, false, db) + rest;
    var b, commit := db[0], [OtherCommits(Touch(db[0]))];
    var s1 := BeforeLast(job, s, before, next);
    TaskStep(job, s1, UnlockTables, next);
    var s2 := Run(job, s, Proceeds(|before|));
    LateCommit(base, job, s2, b);
    var s3 := Run(job, s2, commit);
    var tasks := [LockTables(set t | t in db), DumpTable(b)];
    assert DatabaseTasks(true, false, db)[..2] == tasks;
    assert s3.client.todo == tasks + next[2..];
    DumpAfterCommit(base, job, s3, b, tasks, next[2..]);
    RunMore(job, s, Proceeds(|before|), commit);
    RunMore(job, s, Proceeds(|before|) + commit, Proceeds(2));
    acts := Proceeds(|before|) + commit + Proceeds(2);
  }

  /** With lock_tables on and a table in a later database, some interleaving makes the dump wrong. */
  lemma LockTablesRace(base: Database, job: Job, s0: State, k: nat) returns (acts: seq<Action>)
    requires LocksAll(job.opts) && job.opts.lockTables && Initial(base, job, s0)
    requires 1 <= k < |job.databases| && job.databases[k] != []
    ensures var s := Run(job, s0, acts); s.client.phase != Failed && !TableMatches(base, s, job.databases[k][0])
  {
    AloneRun(base, job, s0, 7);
    var s := Run(job, s0, Proceeds(7));
    var dbs := job.databases;
    assert dbs == dbs[..k] + dbs[k..];
    PlanAppend(true, dbs[..k], dbs[k..]);
    PlanEndsUnlocked(dbs[..k]);
    PlanHasNoRefresh(true, dbs[..k]);
    var before, rest := DumpPlan(true, false, dbs[..k]), DumpPlan(true, false, dbs[k..][1..]);
    var more := UnlockedRace(base, job, s, before, dbs[k], rest);
    RunMore(job, s0, Proceeds(7), more);
    acts := Proceeds(7) + more;
  }

  /**
    Why the normalisation turns lock_tables off: under the global lock, UNLOCK TABLES after
    a database lets other clients in before the next one is read. The dump is right under
    every interleaving exactly when lock_tables is off or no later database has a table.
   */
  lemma LockTablesMustBeOff(base: Database, job: Job, s0: State)
    requires LocksAll(job.opts) && Initial(base, job, s0)
    ensures (forall acts, t :: Run(job, s0, acts).client.phase != Failed ==> TableMatches(base, Run(job, s0, acts), t))
            <==> !job.opts.lockTables || OneDatabase(job.databases)
  {
    if !job.opts.lockTables || OneDatabase(job.databases) {
      SafePlan(job.opts.lockTables, job.databases);
      forall acts, t | Run(job, s0, acts).client.phase != Failed
        ensures TableMatches(base, Run(job, s0, acts), t)
      {
        RunKeepsLocked(base, job, s0, acts);
      }
    } else {
      var k :| 1 <= k < |job.databases| && job.databases[k] != [];
      var acts := LockTablesRace(base, job, s0, k);
    }
  }
}
