/**
 * The locking of connect, disconnect and persist_to_permanent in attacker.py: one lock per session file,
 * found in a table keyed by the file's real path, and one global connect lock, always taken last.
 */
module SessionLocks {
  import opened Common

  /** A session name as the program spells it, and the real path it resolves to. */
  datatype Path = Path(spelled: string, file: string)

  /** connect and disconnect lock one session file; persist_to_permanent locks the temporary and the permanent one. */
  datatype Job = Connect(path: Path) | Disconnect(path: Path) | Persist(path: Path, perm: Path)

  datatype Phase = New | Active | Finished

  /** plan is the locks the task fetched at its start, in the order it takes them; it has taken the first held. */
  datatype Task = Task(job: Job, phase: Phase, plan: seq<nat>, held: nat)

  /** The table maps real paths to locks; locks are numbered, 0 being the global one; holder says who has which. */
  datatype State = State(table: map<string, nat>, nextLock: nat, holder: map<nat, nat>, tasks: seq<Task>)

  const GLOBAL_LOCK: nat := 0

  datatype Event = Start(i: nat) | Acquire(i: nat) | Finish(i: nat)

  predicate Waiting(t: Task) { t.phase.Active? && t.held < |t.plan| }

  predicate Enabled(s: State, e: Event) {
    e.i < |s.tasks| &&
    var t := s.tasks[e.i];
    match e
    case Start(_) => t.phase.New?
    case Acquire(_) => Waiting(t) && t.plan[t.held] !in s.holder
    case Finish(_) => t.phase.Active? && t.held >= |t.plan|
  }

  /** _get_session_lock: the lock for a real path, made on first use. */
  function WithLock(s: State, file: string): State {
    if file in s.table then s else s.(table := s.table[file := s.nextLock], nextLock := s.nextLock + 1)
  }

  function WithLocks(s: State, job: Job): State {
    if job.Persist? then WithLock(WithLock(s, job.path.file), job.perm.file) else WithLock(s, job.path.file)
  }

  /** The locks a task will take, in order: its session's, the permanent session's, the global one. */
  function Plan(table: map<string, nat>, job: Job): seq<nat>
    requires job.path.file in table && (job.Persist? ==> job.perm.file in table)
  {
    if job.Persist? then [table[job.path.file], table[job.perm.file], GLOBAL_LOCK]
    else [table[job.path.file], GLOBAL_LOCK]
  }

  /**
   * The end of persist_to_permanent moves the temporary file's lock to the permanent name, but it looks
   * both up by the spelled name, while the table is keyed by real paths.
   */
  function MoveLock(table: map<string, nat>, job: Job): map<string, nat> {
    if job.Persist? && job.path.spelled in table then
      (table - {job.path.spelled})[job.perm.spelled := table[job.path.spelled]]
    else table
  }

  function Next(s: State, e: Event): State
    requires Enabled(s, e)
  {
    var t := s.tasks[e.i];
    match e
    case Start(i) =>
      var u := WithLocks(s, t.job);
      u.(tasks := s.tasks[i := t.(phase := Active, plan := Plan(u.table, t.job), held := 0)])
    case Acquire(i) =>
      s.(holder := s.holder[t.plan[t.held] := i], tasks := s.tasks[i := t.(held := t.held + 1)])
    case Finish(i) =>
      s.(table := MoveLock(s.table, t.job),
         holder := s.holder - (set l | l in t.plan),
         tasks := s.tasks[i := t.(phase := Finished, held := 0)])
  }

  ghost predicate Leads(s: State, es: seq<Event>, t: State)
    decreases |es|
  {
    if es == [] then s == t
    else Enabled(s, es[0]) && Leads(Next(s, es[0]), es[1..], t)
  }

  ghost predicate Init(s: State) {
    && s.table == map[] && s.nextLock == 1 && s.holder == map[]
    && forall i :: 0 <= i < |s.tasks| ==> s.tasks[i].phase.New? && s.tasks[i].plan == [] && s.tasks[i].held == 0
  }

  // ---------------------------------------------------------------- names

  function Files(job: Job): set<string> {
    if job.Persist? then {job.path.file, job.perm.file} else {job.path.file}
  }

  /**
   * The real paths in use are among files, and no temporary name as spelled is one of them: the sessions
   * directory is given as a relative path.
   */
  ghost predicate Relative(s: State, files: set<string>) {
    forall i :: 0 <= i < |s.tasks| ==>
      Files(s.tasks[i].job) <= files && (s.tasks[i].job.Persist? ==> s.tasks[i].job.path.spelled !in files)
  }

  /** No temporary session file is the permanent file of any task: their names start differently. */
  ghost predicate TempsApart(s: State) {
    forall i, j :: 0 <= i < |s.tasks| && 0 <= j < |s.tasks| && s.tasks[i].job.Persist? && s.tasks[j].job.Persist?
      ==> s.tasks[i].job.path.file != s.tasks[j].job.perm.file
  }

  // ---------------------------------------------------------------- the invariant

  ghost predicate TableSound(s: State, files: set<string>) {
    && s.table.Keys <= files
    && s.nextLock > 0
    && (forall r :: r in s.table ==> 0 < s.table[r] < s.nextLock)
    && (forall r, q :: r in s.table && q in s.table && s.table[r] == s.table[q] ==> r == q)
  }

  /** An active task's plan is what the table says now, and the locks it has taken are held in its name. */
  ghost predicate TaskSound(table: map<string, nat>, holder: map<nat, nat>, i: nat, t: Task) {
    && t.held <= |t.plan|
    && (t.phase.Active? ==>
          t.job.path.file in table && (t.job.Persist? ==> t.job.perm.file in table) && t.plan == Plan(table, t.job))
    && (!t.phase.Active? ==> t.held == 0)
    && (forall k :: 0 <= k < t.held ==> t.plan[k] in holder && holder[t.plan[k]] == i)
  }

  ghost predicate Taken(t: Task, l: nat) {
    t.phase.Active? && exists k :: 0 <= k < t.held && k < |t.plan| && t.plan[k] == l
  }

  ghost predicate HolderSound(s: State) {
    forall l :: l in s.holder ==> s.holder[l] < |s.tasks| && Taken(s.tasks[s.holder[l]], l)
  }

  ghost predicate TasksSound(s: State) {
    forall i :: 0 <= i < |s.tasks| ==> TaskSound(s.table, s.holder, i, s.tasks[i])
  }

  ghost predicate Inv(s: State, files: set<string>) {
    TableSound(s, files) && TasksSound(s) && HolderSound(s)
  }

  lemma WithLockSound(s: State, file: string, files: set<string>)
    requires TableSound(s, files) && file in files
    ensures var u := WithLock(s, file);
            && TableSound(u, files) && u == s.(table := u.table, nextLock := u.nextLock)
            && file in u.table && (forall r :: r in s.table ==> r in u.table && u.table[r] == s.table[r])
  {
  }

  lemma WithLocksSound(s: State, job: Job, files: set<string>)
    requires TableSound(s, files) && Files(job) <= files
    ensures var u := WithLocks(s, job);
            && TableSound(u, files) && u == s.(table := u.table, nextLock := u.nextLock)
            && (forall f :: f in Files(job) ==> f in u.table)
            && (forall r :: r in s.table ==> r in u.table && u.table[r] == s.table[r])
  {
    WithLockSound(s, job.path.file, files);
    if job.Persist? {
      WithLockSound(WithLock(s, job.path.file), job.perm.file, files);
    }
  }

  lemma StartKeepsInv(s: State, i: nat, files: set<string>)
    requires Inv(s, files) && Relative(s, files) && Enabled(s, Start(i))
    ensures Inv(Next(s, Start(i)), files)
  {
    WithLocksSound(s, s.tasks[i].job, files);
    var t := Next(s, Start(i));
    forall j | 0 <= j < |t.tasks| ensures TaskSound(t.table, t.holder, j, t.tasks[j]) {
      assert TaskSound(s.table, s.holder, j, s.tasks[j]);
    }
    forall l | l in t.holder ensures t.holder[l] < |t.tasks| && Taken(t.tasks[t.holder[l]], l) {
      assert Taken(s.tasks[s.holder[l]], l);
    }
  }

  /** Taking a lock, one task and one lock at a time. */
  lemma AcquireKeepsTask(s: State, i: nat, j: nat)
    requires TasksSound(s) && Enabled(s, Acquire(i)) && j < |s.tasks|
    ensures var t := Next(s, Acquire(i)); TaskSound(t.table, t.holder, j, t.tasks[j])
  {
    assert TaskSound(s.table, s.holder, j, s.tasks[j]);
  }

  lemma AcquireKeepsTaken(s: State, i: nat, l: nat)
    requires HolderSound(s) && Enabled(s, Acquire(i)) && l in Next(s, Acquire(i)).holder
    ensures var t := Next(s, Acquire(i)); t.holder[l] < |t.tasks| && Taken(t.tasks[t.holder[l]], l)
  {
    var t := Next(s, Acquire(i));
    if l == s.tasks[i].plan[s.tasks[i].held] {
      assert t.tasks[i].plan[s.tasks[i].held] == l;
    } else {
      assert Taken(s.tasks[s.holder[l]], l);
      var a := s.tasks[s.holder[l]];
      var k :| 0 <= k < a.held && k < |a.plan| && a.plan[k] == l;
      assert t.tasks[t.holder[l]].plan[k] == l;
    }
  }

  lemma AcquireKeepsInv(s: State, i: nat, files: set<string>)
    requires Inv(s, files) && Enabled(s, Acquire(i))
    ensures Inv(Next(s, Acquire(i)), files)
  {
    var t := Next(s, Acquire(i));
    forall j | 0 <= j < |t.tasks| ensures TaskSound(t.table, t.holder, j, t.tasks[j]) {
      AcquireKeepsTask(s, i, j);
    }
    forall l | l in t.holder ensures t.holder[l] < |t.tasks| && Taken(t.tasks[t.holder[l]], l) {
      AcquireKeepsTaken(s, i, l);
    }
  }

  lemma FinishKeepsInv(s: State, i: nat, files: set<string>)
    requires Inv(s, files) && Relative(s, files) && Enabled(s, Finish(i))
    ensures Inv(Next(s, Finish(i)), files) && Next(s, Finish(i)).table == s.table
  {
    var t := Next(s, Finish(i));
    var a := s.tasks[i];
    assert TaskSound(s.table, s.holder, i, a);
    assert t.table == s.table;
    forall j | 0 <= j < |t.tasks| ensures TaskSound(t.table, t.holder, j, t.tasks[j]) {
      assert TaskSound(s.table, s.holder, j, s.tasks[j]);
      if j != i {
        forall k | 0 <= k < t.tasks[j].held ensures t.tasks[j].plan[k] in t.holder {
          var l := s.tasks[j].plan[k];
          assert s.holder[l] == j;
          assert l !in a.plan;
        }
      }
    }
    forall l | l in t.holder ensures t.holder[l] < |t.tasks| && Taken(t.tasks[t.holder[l]], l) {
      assert l !in a.plan;
      assert Taken(s.tasks[s.holder[l]], l);
    }
  }

  ghost predicate SameJobs(s: State, t: State) {
    |t.tasks| == |s.tasks| && forall i :: 0 <= i < |s.tasks| ==> t.tasks[i].job == s.tasks[i].job
  }

  lemma InvStep(s: State, e: Event, files: set<string>)
    requires Inv(s, files) && Relative(s, files) && Enabled(s, e)
    ensures Inv(Next(s, e), files)
  {
    match e
    case Start(i) => StartKeepsInv(s, i, files);
    case Acquire(i) => AcquireKeepsInv(s, i, files);
    case Finish(i) => FinishKeepsInv(s, i, files);
  }

  lemma StepKeepsJobs(s: State, e: Event)
    requires Enabled(s, e)
    ensures SameJobs(s, Next(s, e))
  {
  }

  lemma JobsKeepNames(s: State, t: State, files: set<string>)
    requires SameJobs(s, t) && Relative(s, files) && TempsApart(s)
    ensures Relative(t, files) && TempsApart(t)
  {
  }

  // ---------------------------------------------------------------- how long it can last

  /** Steps a task still has to make: start, take its locks, finish. */
  function Remaining(t: Task): int {
    match t.phase
    case New => 5
    case Active => if t.held < |t.plan| then |t.plan| - t.held + 1 else 1
    case Finished => 0
  }

  lemma StepLowersRemaining(s: State, e: Event)
    requires Enabled(s, e)
    ensures Total(Remaining, Next(s, e).tasks) < Total(Remaining, s.tasks)
  {
    var t := Next(s, e);
    assert t.tasks == s.tasks[e.i := t.tasks[e.i]];
    TotalUpdate(Remaining, s.tasks, e.i, t.tasks[e.i]);
  }

  lemma {:induction false} InvRun(s: State, es: seq<Event>, t: State, files: set<string>)
    requires Inv(s, files) && Relative(s, files) && TempsApart(s) && Leads(s, es, t)
    ensures Inv(t, files) && SameJobs(s, t) && Relative(t, files) && TempsApart(t)
    ensures |es| <= Total(Remaining, s.tasks) - Total(Remaining, t.tasks)
    decreases |es|
  {
    if es != [] {
      InvStep(s, es[0], files);
      StepKeepsJobs(s, es[0]);
      JobsKeepNames(s, Next(s, es[0]), files);
      StepLowersRemaining(s, es[0]);
      InvRun(Next(s, es[0]), es[1..], t, files);
    }
  }

  // ---------------------------------------------------------------- the theorems

  /** The task is inside the part of its code that is protected by the lock it fetched for this file. */
  predicate Inside(t: Task, file: string) {
    && t.phase.Active?
    && ((t.held > 0 && t.job.path.file == file) || (t.held > 1 && t.job.Persist? && t.job.perm.file == file))
  }

  lemma InsideHolds(s: State, i: nat, file: string)
    requires TasksSound(s) && i < |s.tasks| && Inside(s.tasks[i], file)
    ensures file in s.table && s.table[file] in s.holder && s.holder[s.table[file]] == i
  {
    var t := s.tasks[i];
    assert TaskSound(s.table, s.holder, i, t);
    assert t.plan[if t.job.path.file == file then 0 else 1] == s.table[file];
  }

  /** No two tasks are ever inside the critical section of the same session file. */
  lemma SessionsExcludeEachOther(s: State, es: seq<Event>, t: State, files: set<string>, i: nat, j: nat, file: string)
    requires Init(s) && Relative(s, files) && TempsApart(s) && Leads(s, es, t)
    requires i < |t.tasks| && j < |t.tasks| && Inside(t.tasks[i], file) && Inside(t.tasks[j], file)
    ensures i == j
  {
    InvRun(s, es, t, files);
    InsideHolds(t, i, file);
    InsideHolds(t, j, file);
  }

  /**
   * And no two tasks are ever inside their bodies at once, whatever sessions they are about: each holds the
   * locks of all its files and the global one, so clients are opened, closed and moved one at a time.
   */
  lemma OneTaskAtATime(s: State, es: seq<Event>, t: State, files: set<string>, i: nat, j: nat)
    requires Init(s) && Relative(s, files) && TempsApart(s) && Leads(s, es, t)
    requires Enabled(t, Finish(i)) && Enabled(t, Finish(j))
    ensures i == j
    ensures forall f :: f in Files(t.tasks[i].job) ==>
              f in t.table && t.table[f] in t.holder && t.holder[t.table[f]] == i
    ensures GLOBAL_LOCK in t.holder && t.holder[GLOBAL_LOCK] == i
  {
    InvRun(s, es, t, files);
    HoldsAll(t, i);
    HoldsAll(t, j);
  }

  lemma HoldsAll(s: State, i: nat)
    requires TasksSound(s) && Enabled(s, Finish(i))
    ensures forall f :: f in Files(s.tasks[i].job) ==>
              f in s.table && s.table[f] in s.holder && s.holder[s.table[f]] == i
    ensures GLOBAL_LOCK in s.holder && s.holder[GLOBAL_LOCK] == i
  {
    var t := s.tasks[i];
    assert TaskSound(s.table, s.holder, i, t);
    assert t.plan[0] == s.table[t.job.path.file];
    if t.job.Persist? {
      assert t.plan[1] == s.table[t.job.perm.file];
    }
    assert t.plan[|t.plan| - 1] == GLOBAL_LOCK;
  }

  ghost predicate IsPermLock(s: State, l: nat) {
    exists i :: 0 <= i < |s.tasks| && s.tasks[i].job.Persist? && s.tasks[i].job.perm.file in s.table
             && s.table[s.tasks[i].job.perm.file] == l
  }

  /** The order of the locks: temporary files, then permanent files, then the global lock. */
  ghost function Level(s: State, l: nat): nat {
    if l == GLOBAL_LOCK then 2 else if IsPermLock(s, l) then 1 else 0
  }

  /** Every plan takes its locks in rising order of level. */
  lemma PlansRise(s: State, i: nat, a: nat, b: nat, files: set<string>)
    requires TableSound(s, files) && TasksSound(s) && TempsApart(s)
    requires i < |s.tasks| && s.tasks[i].phase.Active? && a < b < |s.tasks[i].plan|
    ensures Level(s, s.tasks[i].plan[a]) < Level(s, s.tasks[i].plan[b])
  {
    var t := s.tasks[i];
    assert TaskSound(s.table, s.holder, i, t);
    if b == |t.plan| - 1 {
      assert t.plan[a] != GLOBAL_LOCK;
    } else {
      assert IsPermLock(s, t.plan[1]);
      assert !IsPermLock(s, t.plan[0]);
    }
  }

  ghost function WaitLevel(s: State, i: nat): nat
    requires i < |s.tasks| && Waiting(s.tasks[i])
  {
    Level(s, s.tasks[i].plan[s.tasks[i].held])
  }

  /** Among the first n tasks, one that waits at the highest level. */
  lemma {:induction false} HighestWaiter(s: State, n: nat) returns (m: nat)
    requires n <= |s.tasks| && exists i :: 0 <= i < n && Waiting(s.tasks[i])
    ensures m < n && Waiting(s.tasks[m])
    ensures forall i :: 0 <= i < n && Waiting(s.tasks[i]) ==> WaitLevel(s, i) <= WaitLevel(s, m)
  {
    if exists i :: 0 <= i < n - 1 && Waiting(s.tasks[i]) {
      m := HighestWaiter(s, n - 1);
      if Waiting(s.tasks[n - 1]) && WaitLevel(s, n - 1) > WaitLevel(s, m) {
        m := n - 1;
      }
    } else {
      m := n - 1;
    }
  }

  /** Whoever holds a lock that somebody waits for is itself waiting, one level higher, or can finish. */
  lemma HolderWaitsHigher(s: State, l: nat, files: set<string>)
    requires Inv(s, files) && TempsApart(s) && l in s.holder
    ensures var j := s.holder[l];
            && j < |s.tasks| && s.tasks[j].phase.Active?
            && (Waiting(s.tasks[j]) ==> WaitLevel(s, j) > Level(s, l))
  {
    var j := s.holder[l];
    assert Taken(s.tasks[j], l);
    var k :| 0 <= k < s.tasks[j].held && k < |s.tasks[j].plan| && s.tasks[j].plan[k] == l;
    if Waiting(s.tasks[j]) {
      PlansRise(s, j, k, s.tasks[j].held, files);
    }
  }

  lemma SomeStepIsEnabled(s: State, files: set<string>, i: nat) returns (e: Event)
    requires Inv(s, files) && TempsApart(s) && i < |s.tasks| && !s.tasks[i].phase.Finished?
    ensures Enabled(s, e)
  {
    if s.tasks[i].phase.New? {
      e := Start(i);
    } else if !Waiting(s.tasks[i]) {
      e := Finish(i);
    } else {
      var m := HighestWaiter(s, |s.tasks|);
      var l := s.tasks[m].plan[s.tasks[m].held];
      if l in s.holder {
        HolderWaitsHigher(s, l, files);
        e := Finish(s.holder[l]);
      } else {
        e := Acquire(m);
      }
    }
  }

  lemma InvInit(s: State, files: set<string>)
    requires Init(s)
    ensures Inv(s, files)
  {
  }

  /**
   * No deadlock, and a bound: in every reachable state with an unfinished task some task can step, and no
   * run of n tasks has more than 5n steps, so a run that goes on as long as it can ends with all finished.
   */
  lemma NoDeadlock(s: State, es: seq<Event>, t: State, files: set<string>)
    requires Init(s) && Relative(s, files) && TempsApart(s) && Leads(s, es, t)
    ensures (exists i :: 0 <= i < |t.tasks| && !t.tasks[i].phase.Finished?) ==> exists e :: Enabled(t, e)
    ensures |es| <= 5 * |s.tasks|
  {
    InvInit(s, files);
    InvRun(s, es, t, files);
    TotalBounds(Remaining, s.tasks, 5, 5);
    RemainingNonNegative(t.tasks);
    if i :| 0 <= i < |t.tasks| && !t.tasks[i].phase.Finished? {
      var e := SomeStepIsEnabled(t, files, i);
    }
  }

  lemma {:induction false} RemainingNonNegative(ts: seq<Task>)
    ensures Total(Remaining, ts) >= 0
  {
    if ts != [] {
      RemainingNonNegative(ts[1..]);
    }
  }

  // ---------------------------------------------------------------- the module's table

  /** _session_locks, changed in place by lookups and by the end of persist_to_permanent. */
  class LockTable {
    var table: map<string, nat>
    var nextLock: nat

    constructor ()
      ensures table == map[] && nextLock == 1
    {
      table, nextLock := map[], 1;
    }

    method GetSessionLock(file: string) returns (l: nat)
      modifies this
      ensures forall s: State :: s.table == old(table) && s.nextLock == old(nextLock) ==>
                WithLock(s, file) == s.(table := table, nextLock := nextLock)
      ensures file in table && l == table[file]
    {
      if file !in table {
        table := table[file := nextLock];
        nextLock := nextLock + 1;
      }
      l := table[file];
    }

    method MovePersisted(path: Path, perm: Path)
      modifies this`table
      ensures table == MoveLock(old(table), Persist(path, perm))
    {
      if path.spelled in table {
        var oldLock := table[path.spelled];
        table := table - {path.spelled};
        table := table[perm.spelled := oldLock];
      }
    }
  }

  // ---------------------------------------------------------------- why the names must be relative

  /** A temporary and a permanent name, each spelled as the real path it is. */
  ghost predicate Absolute(tmp: Path, acc: Path) {
    tmp.spelled == tmp.file && acc.spelled == acc.file && tmp.file != acc.file
  }

  /** One login being made permanent while two tasks connect with the permanent session. */
  function Trio(table: map<string, nat>, next: nat, holder: map<nat, nat>, a: Task, b: Task, c: Task): State {
    State(table, next, holder, [a, b, c])
  }

  function Persisting(tmp: Path, acc: Path, held: nat): Task { Task(Persist(tmp, acc), Active, [1, 2, 0], held) }

  function Connecting(acc: Path, lock: nat, held: nat): Task { Task(Connect(acc), Active, [lock, 0], held) }

  function Fresh(job: Job): Task { Task(job, New, [], 0) }

  function Persisted(tmp: Path, acc: Path): Task { Task(Persist(tmp, acc), Finished, [1, 2, 0], 0) }

  function Both(tmp: Path, acc: Path): map<string, nat> { map[tmp.file := 1, acc.file := 2] }

  function Moved(acc: Path): map<string, nat> { map[acc.file := 1] }

  lemma LeadsBack(s: State, e: Event, u: State, es: seq<Event>, t: State)
    requires Enabled(s, e) && Next(s, e) == u && Leads(u, es, t)
    ensures Leads(s, [e] + es, t)
  {
    assert ([e] + es)[1..] == es;
  }

  lemma {:induction false} LeadsTogether(s: State, es: seq<Event>, u: State, fs: seq<Event>, t: State)
    requires Leads(s, es, u) && Leads(u, fs, t)
    ensures Leads(s, es + fs, t)
    decreases |es|
  {
    if es == [] {
      assert es + fs == fs;
    } else {
      assert (es + fs)[1..] == es[1..] + fs;
      LeadsTogether(Next(s, es[0]), es[1..], u, fs, t);
    }
  }

  lemma BothStart(tmp: Path, acc: Path) returns (es: seq<Event>)
    requires Absolute(tmp, acc)
    ensures Leads(Trio(map[], 1, map[], Fresh(Persist(tmp, acc)), Fresh(Connect(acc)), Fresh(Connect(acc))), es,
                  Trio(Both(tmp, acc), 3, map[], Persisting(tmp, acc, 0), Connecting(acc, 2, 0), Fresh(Connect(acc))))
  {
    var f := Fresh(Connect(acc));
    var s := Trio(map[], 1, map[], Fresh(Persist(tmp, acc)), f, f);
    var u := Trio(Both(tmp, acc), 3, map[], Persisting(tmp, acc, 0), f, f);
    var t := Trio(Both(tmp, acc), 3, map[], Persisting(tmp, acc, 0), Connecting(acc, 2, 0), f);
    assert Next(s, Start(0)) == u;
    LeadsBack(u, Start(1), t, [], t);
    LeadsBack(s, Start(0), u, [Start(1)] + [], t);
    es := [Start(0)] + ([Start(1)] + []);
  }

  lemma PersistTakesLocks(tmp: Path, acc: Path) returns (es: seq<Event>)
    requires Absolute(tmp, acc)
    ensures Leads(Trio(Both(tmp, acc), 3, map[], Persisting(tmp, acc, 0), Connecting(acc, 2, 0), Fresh(Connect(acc))),
                  es,
                  Trio(Both(tmp, acc), 3, map[1 := 0, 2 := 0, 0 := 0], Persisting(tmp, acc, 3), Connecting(acc, 2, 0),
                       Fresh(Connect(acc))))
  {
    var table, b, f := Both(tmp, acc), Connecting(acc, 2, 0), Fresh(Connect(acc));
    var s1 := Trio(table, 3, map[1 := 0], Persisting(tmp, acc, 1), b, f);
    var s2 := Trio(table, 3, map[1 := 0, 2 := 0], Persisting(tmp, acc, 2), b, f);
    var t := Trio(table, 3, map[1 := 0, 2 := 0, 0 := 0], Persisting(tmp, acc, 3), b, f);
    LeadsBack(s2, Acquire(0), t, [], t);
    LeadsBack(s1, Acquire(0), s2, [Acquire(0)] + [], t);
    LeadsBack(Trio(table, 3, map[], Persisting(tmp, acc, 0), b, f), Acquire(0), s1, [Acquire(0)] + ([Acquire(0)] + []),
              t);
    es := [Acquire(0)] + ([Acquire(0)] + ([Acquire(0)] + []));
  }

  /** Task 0 moves its lock; task 1, which fetched the old lock, then takes that. */
  lemma LockIsMoved(tmp: Path, acc: Path) returns (es: seq<Event>)
    requires Absolute(tmp, acc)
    ensures Leads(Trio(Both(tmp, acc), 3, map[1 := 0, 2 := 0, 0 := 0], Persisting(tmp, acc, 3), Connecting(acc, 2, 0),
                       Fresh(Connect(acc))), es,
                  Trio(Moved(acc), 3, map[2 := 1], Persisted(tmp, acc), Connecting(acc, 2, 1), Fresh(Connect(acc))))
  {
    var f := Fresh(Connect(acc));
    var s := Trio(Both(tmp, acc), 3, map[1 := 0, 2 := 0, 0 := 0], Persisting(tmp, acc, 3), Connecting(acc, 2, 0), f);
    var u := Trio(Moved(acc), 3, map[], Persisted(tmp, acc), Connecting(acc, 2, 0), f);
    var t := Trio(Moved(acc), 3, map[2 := 1], Persisted(tmp, acc), Connecting(acc, 2, 1), f);
    assert MoveLock(Both(tmp, acc), Persist(tmp, acc)) == Moved(acc);
    assert map[1 := 0, 2 := 0, 0 := 0] - (set l | l in [1, 2, 0]) == map[];
    LeadsBack(u, Acquire(1), t, [], t);
    LeadsBack(s, Finish(0), u, [Acquire(1)] + [], t);
    es := [Finish(0)] + ([Acquire(1)] + []);
  }

  lemma NewcomerTakesMovedLock(tmp: Path, acc: Path) returns (es: seq<Event>)
    requires Absolute(tmp, acc)
    ensures Leads(Trio(Moved(acc), 3, map[2 := 1], Persisted(tmp, acc), Connecting(acc, 2, 1), Fresh(Connect(acc))), es,
                  Trio(Moved(acc), 3, map[2 := 1, 1 := 2], Persisted(tmp, acc), Connecting(acc, 2, 1),
                       Connecting(acc, 1, 1)))
  {
    var b := Connecting(acc, 2, 1);
    var s := Trio(Moved(acc), 3, map[2 := 1], Persisted(tmp, acc), b, Fresh(Connect(acc)));
    var u := Trio(Moved(acc), 3, map[2 := 1], Persisted(tmp, acc), b, Connecting(acc, 1, 0));
    var t := Trio(Moved(acc), 3, map[2 := 1, 1 := 2], Persisted(tmp, acc), b, Connecting(acc, 1, 1));
    LeadsBack(u, Acquire(2), t, [], t);
    LeadsBack(s, Start(2), u, [Acquire(2)] + [], t);
    es := [Start(2)] + ([Acquire(2)] + []);
  }

  function TrioStart(tmp: Path, acc: Path): State {
    Trio(map[], 1, map[], Fresh(Persist(tmp, acc)), Fresh(Connect(acc)), Fresh(Connect(acc)))
  }

  function TrioEnd(tmp: Path, acc: Path): State {
    Trio(Moved(acc), 3, map[2 := 1, 1 := 2], Persisted(tmp, acc), Connecting(acc, 2, 1), Connecting(acc, 1, 1))
  }

  lemma TrioRun(tmp: Path, acc: Path) returns (es: seq<Event>)
    requires Absolute(tmp, acc)
    ensures Leads(TrioStart(tmp, acc), es, TrioEnd(tmp, acc))
  {
    var s, t, f := TrioStart(tmp, acc), TrioEnd(tmp, acc), Fresh(Connect(acc));
    var s1 := Trio(Both(tmp, acc), 3, map[], Persisting(tmp, acc, 0), Connecting(acc, 2, 0), f);
    var s2 := Trio(Both(tmp, acc), 3, map[1 := 0, 2 := 0, 0 := 0], Persisting(tmp, acc, 3), Connecting(acc, 2, 0), f);
    var s3 := Trio(Moved(acc), 3, map[2 := 1], Persisted(tmp, acc), Connecting(acc, 2, 1), f);
    var e1 := BothStart(tmp, acc);
    var e2 := PersistTakesLocks(tmp, acc);
    var e3 := LockIsMoved(tmp, acc);
    var e4 := NewcomerTakesMovedLock(tmp, acc);
    LeadsTogether(s, e1, s1, e2, s2);
    LeadsTogether(s, e1 + e2, s2, e3, s3);
    LeadsTogether(s, e1 + e2 + e3, s3, e4, t);
    es := e1 + e2 + e3 + e4;
  }

  /** Every task is about one temporary session being made permanent, or uses one of the two. */
  ghost predicate About(s: State, tmp: Path, acc: Path) {
    forall i :: 0 <= i < |s.tasks| ==>
      s.tasks[i].job in {Persist(tmp, acc), Connect(tmp), Disconnect(tmp), Connect(acc), Disconnect(acc)}
  }

  /** No run of any such tasks lets two of them into one session. */
  ghost predicate Exclusive(tmp: Path, acc: Path) {
    forall s: State, es: seq<Event>, t: State | Init(s) && About(s, tmp, acc) && Leads(s, es, t) :: NeverTogether(t)
  }

  ghost predicate NeverTogether(t: State) {
    forall i, j, file :: 0 <= i < j < |t.tasks| && Inside(t.tasks[i], file) ==> !Inside(t.tasks[j], file)
  }

  lemma TrioMakesSense(tmp: Path, acc: Path)
    requires Absolute(tmp, acc)
    ensures Init(TrioStart(tmp, acc)) && TempsApart(TrioStart(tmp, acc)) && About(TrioStart(tmp, acc), tmp, acc)
  {
  }

  lemma TrioEndsTogether(tmp: Path, acc: Path)
    ensures var t := TrioEnd(tmp, acc);
            |t.tasks| == 3 && Inside(t.tasks[1], acc.file) && Inside(t.tasks[2], acc.file)
  {
  }

  /**
   * With absolute names the lock of the temporary file does replace that of the permanent one, and two
   * tasks can be inside the critical section of one session.
   */
  lemma AbsoluteNamesBreakExclusion(tmp: Path, acc: Path)
    requires Absolute(tmp, acc)
    ensures exists s: State, es: seq<Event>, t: State ::
              && Init(s) && About(s, tmp, acc) && TempsApart(s) && Leads(s, es, t)
              && |t.tasks| == 3 && Inside(t.tasks[1], acc.file) && Inside(t.tasks[2], acc.file)
  {
    var s, t := TrioStart(tmp, acc), TrioEnd(tmp, acc);
    var es := TrioRun(tmp, acc);
    TrioMakesSense(tmp, acc);
    TrioEndsTogether(tmp, acc);
    assert Init(s) && Leads(s, es, t);
  }

  /**
   * Exclusion rests on the names being relative: for a temporary and a permanent session whose names are
   * both spelled as their real paths, or of which the temporary one is spelled as neither real path, every
   * run keeps tasks apart exactly in the second case.
   */
  lemma ExclusionIff(tmp: Path, acc: Path)
    requires tmp.file != acc.file
    requires Absolute(tmp, acc) || tmp.spelled !in {tmp.file, acc.file}
    ensures Exclusive(tmp, acc) <==> !Absolute(tmp, acc)
  {
    if Absolute(tmp, acc) {
      AbsoluteNamesBreakExclusion(tmp, acc);
      var s: State, es: seq<Event>, t: State :|
        && Init(s) && About(s, tmp, acc) && TempsApart(s) && Leads(s, es, t)
        && |t.tasks| == 3 && Inside(t.tasks[1], acc.file) && Inside(t.tasks[2], acc.file);
      assert !NeverTogether(t);
    } else {
      forall s: State, es: seq<Event>, t: State | Init(s) && About(s, tmp, acc) && Leads(s, es, t)
        ensures NeverTogether(t)
      {
        assert Relative(s, {tmp.file, acc.file}) && TempsApart(s);
        forall i, j, file | 0 <= i < j < |t.tasks| && Inside(t.tasks[i], file) ensures !Inside(t.tasks[j], file) {
          if Inside(t.tasks[j], file) {
            SessionsExcludeEachOther(s, es, t, {tmp.file, acc.file}, i, j, file);
          }
        }
      }
    }
  }
}
