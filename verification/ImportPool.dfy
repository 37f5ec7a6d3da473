/**
  mysqlimport with --use-threads: main starts one worker per file, at most opt_use_threads at
  a time, waits until every worker has signed off, and destroys the mutexes. The program is a
  state machine in which any thread may take the next step. A step that has to wait for a
  mutex leaves the state as it is.
 */
module ImportPool {
  import opened Wrappers

  datatype WorkerPc =
    | Started                // before mysql_thread_init
    | WantInit               // before locking init_mutex
    | InInit                 // holds init_mutex, before mysql_init
    | HaveInit(ok: bool)     // holds init_mutex, mysql_init has returned
    | Preparing              // connected; sets the character set
    | Working                // loads its file
    | WantCounter            // before locking counter_mutex
    | InCounter              // holds counter_mutex, before counter--
    | Counted                // holds counter_mutex, before the signal
    | Signalled              // holds counter_mutex, before unlocking it
    | Ended                  // uses no shared object any more

  datatype Worker = Worker(file: nat, pc: WorkerPc)

  datatype MainPc =
    | Next | Lock | Test | Wait | Inc | Unlock | Create
    | FailLock | FailDec | FailUnlock | Report
    | DrainLock | DrainTest | DrainWait | DrainUnlock
    | DestroyInit | DestroyCounter | DestroyCond | Join | Done

  datatype Thread = Main | Work(k: nat)

  /** A mutex that exists, or one that was destroyed. */
  datatype Mutex = Mutex(owner: Option<Thread>) | Destroyed

  /** broken is set by any use of a destroyed mutex and by destroying a held one. */
  datatype State = State(pc: MainPc, next: nat, workers: seq<Worker>, failed: seq<nat>, joined: nat,
                         counter: nat, init: Mutex, count: Mutex, broken: bool)

  /** ok is the outcome of the call that the step makes, where it can fail. */
  datatype Action = MainStep(ok: bool) | WorkerStep(k: nat, ok: bool)

  const UINT_MAX: nat := 0xFFFF_FFFF

  function Increment(c: nat): nat { if c >= UINT_MAX then 0 else c + 1 }

  function Decrement(c: nat): nat { if c == 0 then UINT_MAX else c - 1 }

  function Initial(): State {
    State(Next, 0, [], [], 0, 0, Mutex(None), Mutex(None), false)
  }

  predicate Free(m: Mutex) { m == Mutex(None) }

  // --- main

  /** Lock counter_mutex and go on at pc, or stay. */
  function MainLock(s: State, pc: MainPc): State {
    if s.count == Destroyed then s.(broken := true)
    else if Free(s.count) then s.(count := Mutex(Some(Main)), pc := pc)
    else s
  }

  function MainUnlock(s: State, pc: MainPc): State {
    if s.count == Destroyed then s.(broken := true)
    else s.(count := Mutex(None), pc := pc)
  }

  function MainStepOf(s: State, files: nat, threads: nat, ok: bool): State {
    match s.pc
    case Next => s.(pc := if s.next < files then Lock else DrainLock)
    case Lock => MainLock(s, Test)
    case Test => if s.counter == threads then MainUnlock(s, Wait) else s.(pc := Inc)
    case Wait => MainLock(s, Test)
    case Inc => s.(counter := Increment(s.counter), pc := Unlock)
    case Unlock => MainUnlock(s, Create)
    case Create =>
      if ok then s.(workers := s.workers + [Worker(s.next, Started)], next := s.next + 1, pc := Next)
      else s.(pc := FailLock)
    case FailLock => MainLock(s, FailDec)
    case FailDec => s.(counter := Decrement(s.counter), pc := FailUnlock)
    case FailUnlock => MainUnlock(s, Report)
    case Report => s.(failed := s.failed + [s.next], next := s.next + 1, pc := Next)
    case DrainLock => MainLock(s, DrainTest)
    case DrainTest => if s.counter != 0 then MainUnlock(s, DrainWait) else s.(pc := DrainUnlock)
    case DrainWait => MainLock(s, DrainTest)
    case DrainUnlock => MainUnlock(s, DestroyInit)
    case DestroyInit => s.(init := Destroyed, broken := s.broken || !Free(s.init), pc := DestroyCounter)
    case DestroyCounter => s.(count := Destroyed, broken := s.broken || !Free(s.count), pc := DestroyCond)
    case DestroyCond => s.(pc := Join)
    case Join =>
      if s.joined >= |s.workers| then s.(pc := Done)
      else if s.workers[s.joined].pc == Ended then s.(joined := s.joined + 1)
      else s
    case Done => s
  }

  // --- workers

  function Goto(s: State, k: nat, pc: WorkerPc): State
    requires k < |s.workers|
  {
    s.(workers := s.workers[k := s.workers[k].(pc := pc)])
  }

  function LockInit(s: State, k: nat): State
    requires k < |s.workers|
  {
    if s.init == Destroyed then s.(broken := true)
    else if Free(s.init) then Goto(s, k, InInit).(init := Mutex(Some(Work(k))))
    else s
  }

  function UnlockInit(s: State, k: nat, pc: WorkerPc): State
    requires k < |s.workers|
  {
    if s.init == Destroyed then s.(broken := true)
    else Goto(s, k, pc).(init := Mutex(None))
  }

  function LockCounter(s: State, k: nat): State
    requires k < |s.workers|
  {
    if s.count == Destroyed then s.(broken := true)
    else if Free(s.count) then Goto(s, k, InCounter).(count := Mutex(Some(Work(k))))
    else s
  }

  function UnlockCounter(s: State, k: nat): State
    requires k < |s.workers|
  {
    if s.count == Destroyed then s.(broken := true)
    else Goto(s, k, Ended).(count := Mutex(None))
  }

  function WorkerStepOf(s: State, k: nat, ok: bool): State
    requires k < |s.workers|
  {
    match s.workers[k].pc
    case Started => Goto(s, k, if ok then WantInit else WantCounter)
    case WantInit => LockInit(s, k)
    case InInit => Goto(s, k, HaveInit(ok))
    case HaveInit(connected) => UnlockInit(s, k, if connected then Preparing else WantCounter)
    case Preparing => Goto(s, k, if ok then Working else WantCounter)
    case Working => Goto(s, k, WantCounter)
    case WantCounter => LockCounter(s, k)
    case InCounter => Goto(s, k, Counted).(counter := Decrement(s.counter))
    case Counted => Goto(s, k, Signalled)
    case Signalled => UnlockCounter(s, k)
    case Ended => s
  }

  function Step(s: State, files: nat, threads: nat, a: Action): State {
    match a
    case MainStep(ok) => MainStepOf(s, files, threads, ok)
    case WorkerStep(k, ok) => if k < |s.workers| then WorkerStepOf(s, k, ok) else s
  }

  /** The state after any interleaving of steps. */
  function Run(s: State, files: nat, threads: nat, run: seq<Action>): State
    decreases |run|
  {
    if run == [] then s else Run(Step(s, files, threads, run[0]), files, threads, run[1..])
  }

  // --- the invariant

  /** A worker that has not given its slot back. */
  predicate IsLive(w: Worker) {
    w.pc != Counted && w.pc != Signalled && w.pc != Ended
  }

  function Live(workers: seq<Worker>): nat {
    if workers == [] then 0
    else Live(workers[..|workers| - 1]) + if IsLive(workers[|workers| - 1]) then 1 else 0
  }

  lemma {:induction false} LiveAfter(workers: seq<Worker>, k: nat, w: Worker)
    requires k < |workers|
    ensures Live(workers[k := w]) + (if IsLive(workers[k]) then 1 else 0) ==
        Live(workers) + (if IsLive(w) then 1 else 0)
  {
    var last := |workers| - 1;
    if k == last {
      assert workers[k := w][..last] == workers[..last];
    } else {
      LiveAfter(workers[..last], k, w);
      assert workers[k := w][..last] == workers[..last][k := w];
    }
  }

  lemma LiveMore(workers: seq<Worker>, w: Worker)
    ensures Live(workers + [w]) == Live(workers) + if IsLive(w) then 1 else 0
  {
    assert (workers + [w])[..|workers|] == workers;
  }

  lemma {:induction false} NoneLive(workers: seq<Worker>, k: nat)
    requires Live(workers) == 0 && k < |workers|
    ensures !IsLive(workers[k])
  {
    if k < |workers| - 1 {
      NoneLive(workers[..|workers| - 1], k);
    }
  }

  /** Main has raised the counter for a worker that is not started yet. */
  predicate Filling(pc: MainPc) {
    pc == Unlock || pc == Create || pc == FailLock || pc == FailDec
  }

  predicate MainHolds(pc: MainPc) {
    pc == Test || pc == Inc || pc == Unlock || pc == FailDec || pc == FailUnlock || pc == DrainTest || pc == DrainUnlock
  }

  predicate HoldsCounter(pc: WorkerPc) {
    pc == InCounter || pc == Counted || pc == Signalled
  }

  predicate HoldsInit(pc: WorkerPc) {
    pc == InInit || pc.HaveInit?
  }

  /** Main has left the dispatch loop. */
  predicate Drained(pc: MainPc) {
    pc == DrainUnlock || Closed(pc)
  }

  predicate Closed(pc: MainPc) {
    pc == DestroyInit || pc == DestroyCounter || pc == DestroyCond || pc == Join || pc == Done
  }

  /** The counter counts the live workers and the slot being filled. */
  predicate Counts(s: State, threads: nat) {
    && s.counter == Live(s.workers) + (if Filling(s.pc) then 1 else 0)
    && s.counter <= threads
    && (s.pc == Inc ==> s.counter < threads)
  }

  /** counter_mutex is held by the thread that is inside its critical section. */
  predicate CounterOwned(pc: MainPc, workers: seq<Worker>, m: Mutex) {
    m != Destroyed ==>
      && (m.owner == Some(Main) <==> MainHolds(pc))
      && (forall k :: 0 <= k < |workers| ==> (m.owner == Some(Work(k)) <==> HoldsCounter(workers[k].pc)))
      && (m.owner.Some? && m.owner.value.Work? ==>
            m.owner.value.k < |workers| && HoldsCounter(workers[m.owner.value.k].pc))
  }

  /** So is init_mutex, which main never locks. */
  predicate InitOwned(workers: seq<Worker>, m: Mutex) {
    m != Destroyed ==>
      && m.owner != Some(Main)
      && (forall k :: 0 <= k < |workers| ==> (m.owner == Some(Work(k)) <==> HoldsInit(workers[k].pc)))
      && (m.owner.Some? && m.owner.value.Work? ==>
            m.owner.value.k < |workers| && HoldsInit(workers[m.owner.value.k].pc))
  }

  predicate Owned(s: State) {
    CounterOwned(s.pc, s.workers, s.count) && InitOwned(s.workers, s.init)
  }

  /** The mutexes exist until main destroys them, and by then every worker has ended. */
  predicate Kept(s: State) {
    && !s.broken
    && (s.init == Destroyed <==> Closed(s.pc) && s.pc != DestroyInit)
    && (s.count == Destroyed <==> Closed(s.pc) && s.pc != DestroyInit && s.pc != DestroyCounter)
    && (Drained(s.pc) ==> forall k :: 0 <= k < |s.workers| ==> s.workers[k].pc == Ended)
  }

  /** Main has seen the end of the file list. */
  predicate Draining(pc: MainPc) {
    pc == DrainLock || pc == DrainTest || pc == DrainWait || Drained(pc)
  }

  /** Every file before next went to one worker or was reported, and no other file was. */
  ghost predicate DealtOnce(workers: seq<Worker>, failed: seq<nat>, next: nat) {
    forall f: nat :: multiset(Files(workers))[f] + multiset(failed)[f] == if f < next then 1 else 0
  }

  ghost predicate Dealt(s: State, files: nat) {
    && DealtOnce(s.workers, s.failed, s.next) && s.next <= files && s.joined <= |s.workers|
    && (s.pc != Next && !Draining(s.pc) ==> s.next < files)
    && (Draining(s.pc) ==> s.next == files)
  }

  function Files(workers: seq<Worker>): seq<nat> {
    seq(|workers|, i requires 0 <= i < |workers| => workers[i].file)
  }

  ghost predicate Inv(s: State, files: nat, threads: nat) {
    Counts(s, threads) && Owned(s) && Kept(s) && Dealt(s, files)
  }

  // --- every step of main keeps it

  /** Only starting a worker changes the workers. */
  lemma MainMoves(s: State, files: nat, threads: nat, ok: bool)
    ensures var s' := MainStepOf(s, files, threads, ok);
      && (if s.pc == Create && ok then s'.workers == s.workers + [Worker(s.next, Started)] && s'.pc == Next
          else s'.workers == s.workers)
      && (if s.pc == Report then s'.failed == s.failed + [s.next] && s'.pc == Next else s'.failed == s.failed)
      && s.joined <= s'.joined <= (if s.joined <= |s.workers| then |s.workers| else s.joined)
      && (s'.next == if (s.pc == Create && ok) || s.pc == Report then s.next + 1 else s.next)
      && (s'.counter == if s.pc == Inc then Increment(s.counter)
                        else if s.pc == FailDec then Decrement(s.counter) else s.counter)
  {
  }

  lemma MainCounts(s: State, files: nat, threads: nat, ok: bool)
    requires Counts(s, threads) && threads <= UINT_MAX
    ensures Counts(MainStepOf(s, files, threads, ok), threads)
  {
    MainMoves(s, files, threads, ok);
    if s.pc == Create { LiveMore(s.workers, Worker(s.next, Started)); }
  }

  lemma MainOwned(s: State, files: nat, threads: nat, ok: bool)
    requires Owned(s)
    ensures Owned(MainStepOf(s, files, threads, ok))
  {
    var s' := MainStepOf(s, files, threads, ok);
    if s.pc == Create && ok {
    } else {
      assert s'.workers == s.workers;
    }
  }

  lemma DealOne(workers: seq<Worker>, failed: seq<nat>, next: nat, pc: WorkerPc)
    requires DealtOnce(workers, failed, next)
    ensures DealtOnce(workers + [Worker(next, pc)], failed, next + 1)
    ensures DealtOnce(workers, failed + [next], next + 1)
  {
    assert Files(workers + [Worker(next, pc)]) == Files(workers) + [next];
  }

  lemma MainDealt(s: State, files: nat, threads: nat, ok: bool)
    requires Dealt(s, files)
    ensures Dealt(MainStepOf(s, files, threads, ok), files)
  {
    MainMoves(s, files, threads, ok);
    DealOne(s.workers, s.failed, s.next, Started);
  }

  lemma EndedHoldNothing(pc: MainPc, workers: seq<Worker>, count: Mutex, init: Mutex)
    requires CounterOwned(pc, workers, count) && InitOwned(workers, init) && !MainHolds(pc)
    requires forall k :: 0 <= k < |workers| ==> workers[k].pc == Ended
    ensures count == Destroyed || Free(count)
    ensures init == Destroyed || Free(init)
  {
    assert forall k :: 0 <= k < |workers| ==> !HoldsCounter(workers[k].pc) && !HoldsInit(workers[k].pc);
    match count {
      case Destroyed =>
      case Mutex(None) =>
      case Mutex(Some(Main)) =>
      case Mutex(Some(Work(k))) =>
    }
    match init {
      case Destroyed =>
      case Mutex(None) =>
      case Mutex(Some(Main)) =>
      case Mutex(Some(Work(k))) =>
    }
  }

  lemma MainKept(s: State, files: nat, threads: nat, ok: bool)
    requires Counts(s, threads) && Owned(s) && Kept(s)
    ensures Kept(MainStepOf(s, files, threads, ok))
  {
    MainMoves(s, files, threads, ok);
    if Closed(s.pc) { EndedHoldNothing(s.pc, s.workers, s.count, s.init); }
    if s.pc == DrainTest && s.counter == 0 {
      forall k | 0 <= k < |s.workers|
        ensures s.workers[k].pc == Ended
      {
        NoneLive(s.workers, k);
      }
    }
  }

  // --- every step of a worker keeps it

  /** A mutex as worker k leaves it: untouched, locked or unlocked. */
  predicate MutexMove(m: Mutex, m': Mutex, k: nat, holds: bool, holds': bool) {
    || (m' == m && holds' == holds)
    || (Free(m) && m' == Mutex(Some(Work(k))) && !holds && holds')
    || (m.Mutex? && m' == Mutex(None) && holds && !holds')
  }

  /** What a step of worker k can change. */
  predicate WorkerMove(s: State, s': State, k: nat)
    requires k < |s.workers|
  {
    && |s'.workers| == |s.workers|
    && s'.workers == s.workers[k := s.workers[k].(pc := s'.workers[k].pc)]
    && s'.pc == s.pc && s'.next == s.next && s'.failed == s.failed && s'.joined == s.joined
    && var p, p' := s.workers[k].pc, s'.workers[k].pc;
      && s'.counter == (if p == InCounter then Decrement(s.counter) else s.counter)
      && (IsLive(s'.workers[k]) <==> IsLive(s.workers[k]) && p != InCounter)
      && MutexMove(s.count, s'.count, k, HoldsCounter(p), HoldsCounter(p'))
      && MutexMove(s.init, s'.init, k, HoldsInit(p), HoldsInit(p'))
  }

  lemma WorkerMoves(s: State, k: nat, ok: bool)
    requires k < |s.workers|
    ensures WorkerMove(s, WorkerStepOf(s, k, ok), k)
  {
  }

  lemma WorkerCounts(s: State, s': State, threads: nat, k: nat)
    requires Counts(s, threads) && threads <= UINT_MAX && k < |s.workers| && WorkerMove(s, s', k)
    ensures Counts(s', threads)
  {
    LiveAfter(s.workers, k, s'.workers[k]);
  }

  lemma WorkerOwned(s: State, s': State, k: nat)
    requires Owned(s) && k < |s.workers| && WorkerMove(s, s', k)
    ensures Owned(s')
  {
  }

  lemma WorkerDealt(s: State, s': State, files: nat, k: nat)
    requires Dealt(s, files) && k < |s.workers| && WorkerMove(s, s', k)
    ensures Dealt(s', files)
  {
    assert Files(s'.workers) == Files(s.workers);
  }

  lemma WorkerKept(s: State, k: nat, ok: bool)
    requires Kept(s) && k < |s.workers|
    ensures Kept(WorkerStepOf(s, k, ok))
  {
  }

  // --- every run

  lemma StepKeepsInv(s: State, files: nat, threads: nat, a: Action)
    requires Inv(s, files, threads) && threads <= UINT_MAX
    ensures Inv(Step(s, files, threads, a), files, threads)
  {
    match a
    case MainStep(ok) =>
      MainCounts(s, files, threads, ok);
      MainOwned(s, files, threads, ok);
      MainKept(s, files, threads, ok);
      MainDealt(s, files, threads, ok);
    case WorkerStep(k, ok) =>
      if k < |s.workers| {
        var s' := WorkerStepOf(s, k, ok);
        WorkerMoves(s, k, ok);
        WorkerCounts(s, s', threads, k);
        WorkerOwned(s, s', k);
        WorkerKept(s, k, ok);
        WorkerDealt(s, s', files, k);
      }
  }

  lemma {:induction false} RunKeepsInv(s: State, files: nat, threads: nat, run: seq<Action>)
    requires Inv(s, files, threads) && threads <= UINT_MAX
    ensures Inv(Run(s, files, threads, run), files, threads)
    decreases |run|
  {
    if run != [] {
      StepKeepsInv(s, files, threads, run[0]);
      RunKeepsInv(Step(s, files, threads, run[0]), files, threads, run[1..]);
    }
  }

  lemma InitialInv(files: nat, threads: nat)
    ensures Inv(Initial(), files, threads)
  {
    assert forall f: nat :: multiset(Files([]))[f] == 0;
  }

  /** The counter is the number of live workers and the slot being filled, at most opt_use_threads. */
  lemma CounterBoundsWorkers(files: nat, threads: nat, run: seq<Action>)
    requires threads <= UINT_MAX
    ensures var s := Run(Initial(), files, threads, run);
      s.counter == Live(s.workers) + (if Filling(s.pc) then 1 else 0) && s.counter <= threads
  {
    InitialInv(files, threads);
    RunKeepsInv(Initial(), files, threads, run);
  }

  /** At no time has a file two workers, and in the end each has one or was reported. */
  lemma EachFileOnce(files: nat, threads: nat, run: seq<Action>, f: nat)
    requires threads <= UINT_MAX
    ensures var s := Run(Initial(), files, threads, run);
      && multiset(Files(s.workers))[f] + multiset(s.failed)[f] == (if f < s.next then 1 else 0)
      && s.next <= files && (s.pc == Done ==> s.next == files)
  {
    InitialInv(files, threads);
    RunKeepsInv(Initial(), files, threads, run);
  }

  lemma {:induction false} EndedStay(s: State, files: nat, threads: nat, run: seq<Action>)
    requires Drained(s.pc) && forall k :: 0 <= k < |s.workers| ==> s.workers[k].pc == Ended
    ensures Run(s, files, threads, run).workers == s.workers
    decreases |run|
  {
    if run != [] {
      EndedStay(Step(s, files, threads, run[0]), files, threads, run[1..]);
    }
  }

  /**
    When main destroys a mutex nobody holds it, every worker has ended, and however the
    program goes on no worker takes another step: none can use a destroyed mutex.
   */
  lemma MutexesOutliveWorkers(files: nat, threads: nat, run: seq<Action>, more: seq<Action>)
    requires threads <= UINT_MAX
    ensures var s := Run(Initial(), files, threads, run);
      && !s.broken
      && (s.pc == DestroyInit ==> Free(s.init)) && (s.pc == DestroyCounter ==> Free(s.count))
      && (s.pc == DestroyInit || s.init == Destroyed || s.count == Destroyed ==>
            && (forall k :: 0 <= k < |s.workers| ==> s.workers[k].pc == Ended)
            && Run(s, files, threads, more).workers == s.workers)
  {
    InitialInv(files, threads);
    RunKeepsInv(Initial(), files, threads, run);
    var s := Run(Initial(), files, threads, run);
    if Drained(s.pc) {
      EndedStay(s, files, threads, more);
      if Closed(s.pc) { EndedHoldNothing(s.pc, s.workers, s.count, s.init); }
    }
  }

  // --- what becomes of each file

  /** The file that a step gives to the server. */
  function Loads(s: State, a: Action): seq<nat> {
    if a.WorkerStep? && a.k < |s.workers| && s.workers[a.k].pc == Working then [s.workers[a.k].file] else []
  }

  /** The file that a step loses, because a call of its worker fails before the file is loaded. */
  function Loses(s: State, a: Action): seq<nat> {
    if a.WorkerStep? && a.k < |s.workers| && !a.ok && s.workers[a.k].pc in {Started, InInit, Preparing} then
      [s.workers[a.k].file]
    else []
  }

  /** The files that a run loads. */
  function Loaded(s: State, files: nat, threads: nat, run: seq<Action>): seq<nat>
    decreases |run|
  {
    if run == [] then []
    else Loads(s, run[0]) + Loaded(Step(s, files, threads, run[0]), files, threads, run[1..])
  }

  /** The files that a run loses. */
  function Lost(s: State, files: nat, threads: nat, run: seq<Action>): seq<nat>
    decreases |run|
  {
    if run == [] then []
    else Loses(s, run[0]) + Lost(Step(s, files, threads, run[0]), files, threads, run[1..])
  }

  /** The worker has loaded its file or has lost it. */
  predicate IsSettled(pc: WorkerPc) {
    pc in {HaveInit(false), WantCounter, InCounter, Counted, Signalled, Ended}
  }

  predicate SettledFor(w: Worker, f: nat) {
    w.file == f && IsSettled(w.pc)
  }

  /** The number of workers that have loaded or lost f. */
  function Settled(workers: seq<Worker>, f: nat): nat {
    if workers == [] then 0
    else Settled(workers[..|workers| - 1], f) + if SettledFor(workers[|workers| - 1], f) then 1 else 0
  }

  lemma {:induction false} SettledAfter(workers: seq<Worker>, k: nat, w: Worker, f: nat)
    requires k < |workers|
    ensures Settled(workers[k := w], f) + (if SettledFor(workers[k], f) then 1 else 0) ==
        Settled(workers, f) + (if SettledFor(w, f) then 1 else 0)
  {
    hide SettledFor;
    var last := |workers| - 1;
    if k == last {
      assert workers[k := w][..last] == workers[..last];
    } else {
      SettledAfter(workers[..last], k, w, f);
      assert workers[k := w][..last] == workers[..last][k := w];
    }
  }

  lemma SettledMore(workers: seq<Worker>, w: Worker, f: nat)
    ensures Settled(workers + [w], f) == Settled(workers, f) + if SettledFor(w, f) then 1 else 0
  {
    assert (workers + [w])[..|workers|] == workers;
  }

  /** Ended workers are settled. */
  lemma {:induction false} AllSettled(workers: seq<Worker>, f: nat)
    requires forall k :: 0 <= k < |workers| ==> workers[k].pc == Ended
    ensures Settled(workers, f) == multiset(Files(workers))[f]
  {
    if workers != [] {
      var last := |workers| - 1;
      AllSettled(workers[..last], f);
      assert Files(workers) == Files(workers[..last]) + [workers[last].file];
    }
  }

  /** A worker settles its file in the step that loads or loses it, and in no other. */
  lemma WorkerSettles(s: State, k: nat, ok: bool)
    requires k < |s.workers|
    ensures var w, w', a := s.workers[k], WorkerStepOf(s, k, ok).workers[k], WorkerStep(k, ok);
      if IsSettled(w'.pc) == IsSettled(w.pc) then Loads(s, a) == [] && Loses(s, a) == []
      else IsSettled(w'.pc) && Loads(s, a) + Loses(s, a) == [w.file]
  {
  }

  lemma StepSettles(s: State, files: nat, threads: nat, a: Action, f: nat)
    ensures Settled(Step(s, files, threads, a).workers, f) ==
        Settled(s.workers, f) + multiset(Loads(s, a))[f] + multiset(Loses(s, a))[f]
  {
    match a
    case MainStep(ok) =>
      MainMoves(s, files, threads, ok);
      SettledMore(s.workers, Worker(s.next, Started), f);
    case WorkerStep(k, ok) =>
      if k < |s.workers| {
        hide WorkerStepOf, IsSettled;
        var s' := WorkerStepOf(s, k, ok);
        WorkerMoves(s, k, ok);
        WorkerSettles(s, k, ok);
        SettledAfter(s.workers, k, s'.workers[k], f);
      }
  }

  lemma {:induction false} RunSettles(s: State, files: nat, threads: nat, run: seq<Action>, f: nat)
    ensures Settled(Run(s, files, threads, run).workers, f) ==
        Settled(s.workers, f) + multiset(Loaded(s, files, threads, run))[f] + multiset(Lost(s, files, threads, run))[f]
    decreases |run|
  {
    hide Step, Loads, Loses, Settled;
    if run != [] {
      StepSettles(s, files, threads, run[0], f);
      RunSettles(Step(s, files, threads, run[0]), files, threads, run[1..], f);
    }
  }

  /**
    When the program is done, each file was loaded exactly once, or no thread could be created
    for it, or a call of its worker failed, and only one of these.
   */
  lemma EachFileIsLoadedOrFailed(files: nat, threads: nat, run: seq<Action>, f: nat)
    requires threads <= UINT_MAX
    ensures var s := Run(Initial(), files, threads, run);
      s.pc == Done ==>
        multiset(Loaded(Initial(), files, threads, run))[f] + multiset(s.failed)[f]
        + multiset(Lost(Initial(), files, threads, run))[f] == if f < files then 1 else 0
  {
    var s := Run(Initial(), files, threads, run);
    EachFileOnce(files, threads, run, f);
    RunSettles(Initial(), files, threads, run, f);
    if s.pc == Done {
      InitialInv(files, threads);
      RunKeepsInv(Initial(), files, threads, run);
      AllSettled(s.workers, f);
    }
  }

  /** The number of calls that failed. */
  function Failures(run: seq<Action>): nat {
    if run == [] then 0 else (if run[0].ok then 0 else 1) + Failures(run[1..])
  }

  /** The files for which no thread could be created, one that is about to be reported included. */
  function Unstarted(s: State): nat {
    |s.failed| + if s.pc in {FailLock, FailDec, FailUnlock, Report} then 1 else 0
  }

  lemma StepMisses(s: State, files: nat, threads: nat, a: Action)
    ensures Unstarted(Step(s, files, threads, a)) + |Loses(s, a)| <= Unstarted(s) + if a.ok then 0 else 1
  {
    match a
    case MainStep(ok) => MainMoves(s, files, threads, ok);
    case WorkerStep(k, ok) =>
      hide WorkerStepOf;
      if k < |s.workers| { WorkerMoves(s, k, ok); }
  }

  lemma {:induction false} RunMisses(s: State, files: nat, threads: nat, run: seq<Action>)
    ensures Unstarted(Run(s, files, threads, run)) + |Lost(s, files, threads, run)| <= Unstarted(s) + Failures(run)
    decreases |run|
  {
    hide Unstarted, Step, Loses;
    if run != [] {
      StepMisses(s, files, threads, run[0]);
      RunMisses(Step(s, files, threads, run[0]), files, threads, run[1..]);
    }
  }

  /** Every file that is not loaded has a failed call to blame: if all calls succeed, every file is loaded once. */
  lemma MissedFilesHadFailures(files: nat, threads: nat, run: seq<Action>)
    requires threads <= UINT_MAX
    ensures var s, lost := Run(Initial(), files, threads, run), Lost(Initial(), files, threads, run);
      && |s.failed| + |lost| <= Failures(run)
      && (s.pc == Done && Failures(run) == 0 ==>
            forall f: nat :: multiset(Loaded(Initial(), files, threads, run))[f] == if f < files then 1 else 0)
  {
    RunMisses(Initial(), files, threads, run);
    var s, lost := Run(Initial(), files, threads, run), Lost(Initial(), files, threads, run);
    if s.pc == Done && Failures(run) == 0 {
      assert s.failed == [] && lost == [];
      forall f: nat
        ensures multiset(Loaded(Initial(), files, threads, run))[f] == if f < files then 1 else 0
      {
        EachFileIsLoadedOrFailed(files, threads, run, f);
      }
    }
  }

  // --- the program cannot hang

  function WorkerLeft(pc: WorkerPc): nat {
    match pc
    case Started => 10
    case WantInit => 9
    case InInit => 8
    case HaveInit(_) => 7
    case Preparing => 6
    case Working => 5
    case WantCounter => 4
    case InCounter => 3
    case Counted => 2
    case Signalled => 1
    case Ended => 0
  }

  function AllLeft(workers: seq<Worker>): nat {
    if workers == [] then 0
    else AllLeft(workers[..|workers| - 1]) + WorkerLeft(workers[|workers| - 1].pc)
  }

  /** Waiting for the counter to change counts as standing still. */
  function MainLeft(pc: MainPc): nat {
    match pc
    case Next => 10
    case Lock => 9
    case Test => 8
    case Wait => 8
    case Inc => 7
    case Unlock => 6
    case Create => 5
    case FailLock => 4
    case FailDec => 3
    case FailUnlock => 2
    case Report => 1
    case DrainLock => 8
    case DrainTest => 7
    case DrainWait => 7
    case DrainUnlock => 6
    case DestroyInit => 5
    case DestroyCounter => 4
    case DestroyCond => 3
    case Join => 2
    case Done => 0
  }

  /** An upper bound on the steps still to be taken, waiting apart. */
  function Left(s: State, files: nat): int {
    20 * (files - s.next) + AllLeft(s.workers) + MainLeft(s.pc) + (|s.workers| - s.joined)
  }

  lemma {:induction false} LeftAfter(workers: seq<Worker>, k: nat, w: Worker)
    requires k < |workers|
    ensures AllLeft(workers[k := w]) + WorkerLeft(workers[k].pc) == AllLeft(workers) + WorkerLeft(w.pc)
  {
    var last := |workers| - 1;
    if k == last {
      assert workers[k := w][..last] == workers[..last];
    } else {
      LeftAfter(workers[..last], k, w);
      assert workers[k := w][..last] == workers[..last][k := w];
    }
  }

  lemma LeftMore(workers: seq<Worker>, w: Worker)
    ensures AllLeft(workers + [w]) == AllLeft(workers) + WorkerLeft(w.pc)
  {
    assert (workers + [w])[..|workers|] == workers;
  }

  lemma {:induction false} SomeLive(workers: seq<Worker>) returns (k: nat)
    requires Live(workers) > 0
    ensures k < |workers| && IsLive(workers[k])
  {
    var last := |workers| - 1;
    if IsLive(workers[last]) {
      k := last;
    } else {
      k := SomeLive(workers[..last]);
    }
  }

  lemma MainGoesOn(s: State, files: nat, threads: nat, ok: bool)
    ensures var s' := MainStepOf(s, files, threads, ok);
      if (s.pc == Create && ok) || s.pc == Report then s'.pc == Next else MainLeft(s'.pc) <= MainLeft(s.pc)
  {
  }

  lemma WorkerGoesOn(s: State, k: nat, ok: bool)
    requires k < |s.workers|
    ensures var s' := WorkerStepOf(s, k, ok);
      |s'.workers| == |s.workers| && WorkerLeft(s'.workers[k].pc) <= WorkerLeft(s.workers[k].pc)
  {
  }

  lemma WorkerMoveLeft(s: State, s': State, files: nat, k: nat)
    requires k < |s.workers| && WorkerMove(s, s', k)
    ensures Left(s', files) == Left(s, files) + WorkerLeft(s'.workers[k].pc) - WorkerLeft(s.workers[k].pc)
  {
    LeftAfter(s.workers, k, s'.workers[k]);
  }

  /** No step takes the program back. */
  lemma StepsGoOn(s: State, files: nat, threads: nat, a: Action)
    requires Inv(s, files, threads)
    ensures Left(Step(s, files, threads, a), files) <= Left(s, files)
  {
    match a
    case MainStep(ok) =>
      MainMoves(s, files, threads, ok);
      MainGoesOn(s, files, threads, ok);
      LeftMore(s.workers, Worker(s.next, Started));
    case WorkerStep(k, ok) =>
      if k < |s.workers| {
        WorkerMoves(s, k, ok);
        WorkerGoesOn(s, k, ok);
        WorkerMoveLeft(s, WorkerStepOf(s, k, ok), files, k);
      }
  }

  /** The worker's next step does not wait. */
  predicate WorkerReady(s: State, pc: WorkerPc) {
    match pc
    case WantInit => Free(s.init)
    case HaveInit(_) => s.init != Destroyed
    case WantCounter => Free(s.count)
    case Signalled => s.count != Destroyed
    case Ended => false
    case _ => true
  }

  lemma WorkerReadyGoesOn(s: State, k: nat)
    requires k < |s.workers| && WorkerReady(s, s.workers[k].pc)
    ensures var s' := WorkerStepOf(s, k, true);
      |s'.workers| == |s.workers| && WorkerLeft(s'.workers[k].pc) < WorkerLeft(s.workers[k].pc)
  {
  }

  /** While main does not hold counter_mutex and some worker has not ended, some worker can go on. */
  lemma AWorkerCanGoOn(s: State, files: nat, threads: nat, k: nat) returns (j: nat)
    requires Inv(s, files, threads) && k < |s.workers| && s.workers[k].pc != Ended && !MainHolds(s.pc)
    ensures Left(Step(s, files, threads, WorkerStep(j, true)), files) < Left(s, files)
  {
    j := if s.workers[k].pc == WantInit && !Free(s.init) then s.init.owner.value.k
         else if s.workers[k].pc == WantCounter && !Free(s.count) then s.count.owner.value.k
         else k;
    assert WorkerReady(s, s.workers[j].pc);
    hide WorkerReady, Inv, WorkerStepOf, WorkerMove, Left, WorkerLeft;
    WorkerReadyGoesOn(s, j);
    WorkerMoves(s, j, true);
    WorkerMoveLeft(s, WorkerStepOf(s, j, true), files, j);
  }

  /** A live worker lets main through once main waits. */
  lemma WaitingHelps(s: State, files: nat, threads: nat) returns (run: seq<Action>)
    requires Inv(s, files, threads) && threads <= UINT_MAX && Live(s.workers) > 0
    requires (s.pc == Test && s.counter == threads) || (s.pc == DrainTest && s.counter != 0)
    ensures Left(Run(s, files, threads, run), files) < Left(s, files)
  {
    var s1 := Step(s, files, threads, MainStep(true));
    StepKeepsInv(s, files, threads, MainStep(true));
    var k := SomeLive(s.workers);
    var j := AWorkerCanGoOn(s1, files, threads, k);
    run := [MainStep(true), WorkerStep(j, true)];
    RunTwo(s, files, threads, MainStep(true), WorkerStep(j, true));
  }

  /** Main's next step does not wait. */
  predicate MainReady(s: State, threads: nat) {
    match s.pc
    case Test => s.counter != threads
    case DrainTest => s.counter == 0
    case Lock | FailLock | DrainLock => Free(s.count)
    case Unlock | FailUnlock | DrainUnlock => s.count != Destroyed
    case Wait | DrainWait | Done => false
    case Join => s.joined < |s.workers| ==> s.workers[s.joined].pc == Ended
    case _ => true
  }

  lemma MainReadyGoesOn(s: State, files: nat, threads: nat)
    requires MainReady(s, threads)
    ensures Left(Step(s, files, threads, MainStep(true)), files) < Left(s, files)
  {
    if s.pc == Create {
      LeftMore(s.workers, Worker(s.next, Started));
    }
  }

  /** One step of a run. */
  lemma RunOne(s: State, files: nat, threads: nat, a: Action)
    ensures Run(s, files, threads, [a]) == Step(s, files, threads, a)
  {
    assert [a][1..] == [];
  }

  lemma RunTwo(s: State, files: nat, threads: nat, a: Action, b: Action)
    ensures Run(s, files, threads, [a, b]) == Step(Step(s, files, threads, a), files, threads, b)
  {
    assert [a, b][1..] == [b];
    RunOne(Step(s, files, threads, a), files, threads, b);
  }

  /** With every worker ended, main goes on alone. */
  lemma MainAlone(s: State, files: nat, threads: nat) returns (run: seq<Action>)
    requires Inv(s, files, threads) && 1 <= threads && s.pc != Done && !MainHolds(s.pc)
    requires forall k :: 0 <= k < |s.workers| ==> s.workers[k].pc == Ended
    ensures Left(Run(s, files, threads, run), files) < Left(s, files)
  {
    EndedHoldNothing(s.pc, s.workers, s.count, s.init);
    if s.pc == Wait || s.pc == DrainWait {
      if Live(s.workers) > 0 { var k := SomeLive(s.workers); }
      run := [MainStep(true), MainStep(true)];
      RunTwo(s, files, threads, MainStep(true), MainStep(true));
      MainReadyGoesOn(Step(s, files, threads, MainStep(true)), files, threads);
    } else {
      run := [MainStep(true)];
      RunOne(s, files, threads, MainStep(true));
      MainReadyGoesOn(s, files, threads);
    }
  }

  /** From every reachable state some threads can take the program on until it is done. */
  lemma NeverStuck(files: nat, threads: nat, before: seq<Action>) returns (run: seq<Action>)
    requires 1 <= threads <= UINT_MAX && Run(Initial(), files, threads, before).pc != Done
    ensures var s := Run(Initial(), files, threads, before);
      Left(Run(s, files, threads, run), files) < Left(s, files)
  {
    InitialInv(files, threads);
    RunKeepsInv(Initial(), files, threads, before);
    var s := Run(Initial(), files, threads, before);
    if MainHolds(s.pc) {
      if MainReady(s, threads) {
        run := [MainStep(true)];
        RunOne(s, files, threads, MainStep(true));
        MainReadyGoesOn(s, files, threads);
      } else {
        run := WaitingHelps(s, files, threads);
      }
    } else if k: nat :| k < |s.workers| && s.workers[k].pc != Ended {
      var j := AWorkerCanGoOn(s, files, threads, k);
      run := [WorkerStep(j, true)];
      RunOne(s, files, threads, WorkerStep(j, true));
    } else {
      run := MainAlone(s, files, threads);
    }
  }

  /** A run goes on to the end of the program, and no thread can take it back. */
  lemma {:induction false} CanFinish(files: nat, threads: nat, before: seq<Action>) returns (run: seq<Action>)
    requires 1 <= threads <= UINT_MAX
    ensures Run(Run(Initial(), files, threads, before), files, threads, run).pc == Done
    decreases Left(Run(Initial(), files, threads, before), files)
  {
    InitialInv(files, threads);
    RunKeepsInv(Initial(), files, threads, before);
    var s := Run(Initial(), files, threads, before);
    if s.pc == Done {
      run := [];
    } else {
      var first := NeverStuck(files, threads, before);
      RunAppend(Initial(), files, threads, before, first);
      RunKeepsInv(s, files, threads, first);
      var rest := CanFinish(files, threads, before + first);
      RunAppend(s, files, threads, first, rest);
      run := first + rest;
    }
  }

  lemma {:induction false} RunAppend(s: State, files: nat, threads: nat, run: seq<Action>, more: seq<Action>)
    ensures Run(s, files, threads, run + more) == Run(Run(s, files, threads, run), files, threads, more)
    decreases |run|
  {
    if run == [] {
      assert run + more == more;
    } else {
      assert (run + more)[1..] == run[1..] + more;
      RunAppend(Step(s, files, threads, run[0]), files, threads, run[1..], more);
    }
  }
}
