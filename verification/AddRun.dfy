/**
 * The parallel add run (bot.py, _execute_parallel_add and _worker_account_inner) as a step system on
 * values.  A step is the code a worker runs between two awaits; where one stretch between awaits goes
 * round the loop several times it is cut into one step per turn, so the schedules here include all of
 * the event loop's.  Telegram's answers and the outcome of every wait are the Choice of a step.
 */
module AddRun {
  /** The fields of a queued member that the worker looks at: its id, and whether it has a username. */
  datatype Member = Member(uid: int, named: bool)

  /** How a member is finished with.  A flood wait on the invite is FloodWaited, an unknown error OtherError. */
  datatype Outcome =
    | Joined | NotJoined | AlreadyIn | Privacy | InvalidPeer | TooManyChannels
    | FloodWaited | OtherError | Barred | Unresolved
  {
    predicate IsFailed() { FloodWaited? || OtherError? }

    predicate IsSkipped() { !Joined? && !IsFailed() }

    /** Outcomes after which the worker puts the id in the blocked set it holds. */
    predicate Blocks() { Joined? || NotJoined? || AlreadyIn? || Privacy? || InvalidPeer? }
  }

  datatype Finished = Finished(member: Member, outcome: Outcome)

  datatype Exit = NeverStarted | QueueEmpty | AtCap | Stopped | StruckOut | Forbidden | FloodWaitExit | AbortGuard

  /** Where a worker stands; every phase but AtLoop and Left is an await. */
  datatype Phase =
    | Launching
    | Connecting
    | AtLoop
    | Resolving(member: Member, byId: bool)
    | Throttled(member: Member)
    | Inviting(member: Member)
    | Cooling
    | Pausing(long: bool)
    | Breaking
    | Left(why: Exit)

  datatype Worker = Worker(phase: Phase, strikes: nat, added: nat, skipsInRow: nat)

  datatype Run = Run(
    queue: seq<Member>,
    workers: seq<Worker>,
    added: nat,
    failed: nat,
    skipped: nat,
    globalFails: nat,
    stopEvent: bool,
    stopRequested: bool,
    stopParallel: bool,
    blocked: set<int>,
    log: seq<Finished>,
    dequeues: nat)

  datatype InviteReply =
    | Answered(outcome: Outcome)
    | PeerFlood
    | WriteForbidden

  /**
   * What the awaited call or wait did.  Go: it succeeded or timed out; Fail: it raised; StopSeen: the
   * wait ended because the stop event was set; Flooded: a flood answer while resolving; Invite: the
   * answer to the invitation, with the coin that decides whether a periodic break follows.
   */
  datatype Choice = Go | Fail | StopSeen | Flooded | Invite(reply: InviteReply, breakNow: bool)

  /** A worker's step, a change of the stop flags by a handler, or another task adding to the shared set. */
  datatype Event =
    | Step(w: nat, choice: Choice)
    | RaiseStop
    | SetFlags(requested: bool, parallel: bool)
    | Learn(uid: int)

  const ABORT_AFTER_FAILS: nat := 25
  const MAX_STRIKES: nat := 6
  const ACCOUNT_CAP: nat := 100000
  const SKIPS_BEFORE_REST: nat := 8

  predicate ValidReply(r: InviteReply) {
    r.Answered? ==> !r.outcome.Barred? && !r.outcome.Unresolved?
  }

  predicate Possible(s: Run, w: Worker, c: Choice) {
    match w.phase
    case Launching => c.Go? || c.Fail? || (c.StopSeen? && s.stopEvent)
    case Connecting => c.Go? || c.Fail?
    case AtLoop => c.Go?
    case Resolving(_, _) => c.Go? || c.Fail? || c.Flooded?
    case Throttled(_) => c.Go?
    case Inviting(_) => c.Invite? && ValidReply(c.reply)
    case Left(_) => false
    case _ => c.Go? || (c.StopSeen? && s.stopEvent)
  }

  predicate Enabled(s: Run, e: Event) {
    e.Step? ==> e.w < |s.workers| && Possible(s, s.workers[e.w], e.choice)
  }

  /** Ids outside Telegram's range, and ids in the shared set, are never sent a request. */
  predicate IsBarred(uid: int, blocked: set<int>) {
    uid <= 10000 || uid >= 100000000000 || uid in blocked
  }

  /** What a worker's step does to the run besides moving the worker on. */
  datatype Effect =
    | Nothing
    | Take(member: Member)
    | BarHead(member: Member)
    | PutBack(member: Member)
    | End(member: Member, outcome: Outcome)

  datatype Reaction = Reaction(worker: Worker, effect: Effect)

  /** The abort guard, as tested by the answer "invited but not a member": no other answer tests it. */
  predicate GuardTrips(s: Run) {
    s.globalFails + 1 >= ABORT_AFTER_FAILS && s.added == 0
  }

  function Leave(w: Worker, why: Exit): Reaction {
    Reaction(w.(phase := Left(why)), Nothing)
  }

  function Move(w: Worker, phase: Phase): Reaction {
    Reaction(w.(phase := phase), Nothing)
  }

  /** One turn of the loop head: leave, or take a member and either bar it or start resolving it. */
  function AtLoopHead(s: Run, w: Worker): Reaction {
    if s.queue == [] then Leave(w, QueueEmpty)
    else if w.added >= ACCOUNT_CAP then Leave(w, AtCap)
    else if s.stopEvent || s.stopRequested || s.stopParallel then Leave(w, Stopped)
    else if IsBarred(s.queue[0].uid, s.blocked) then Reaction(w, BarHead(s.queue[0]))
    else Reaction(w.(phase := Resolving(s.queue[0], false)), Take(s.queue[0]))
  }

  /** A flood answer: one more strike, the member goes back to the queue, and the worker cools down. */
  function Flood(w: Worker, m: Member): Reaction {
    Reaction(w.(phase := Cooling, strikes := w.strikes + 1), PutBack(m))
  }

  function AfterResolve(w: Worker, m: Member, byId: bool, c: Choice): Reaction {
    if c.Go? then Move(w, Throttled(m))
    else if c.Flooded? then Flood(w, m)
    else if !byId && m.named then Move(w, Resolving(m, true))
    else Reaction(w.(phase := AtLoop), End(m, Unresolved))
  }

  /** The second stop test, after the throttle: note that it does not look at stopParallel. */
  function AfterThrottle(s: Run, w: Worker, m: Member): Reaction {
    if s.stopEvent || s.stopRequested then Reaction(w.(phase := Left(Stopped)), PutBack(m))
    else Move(w, Inviting(m))
  }

  function AfterNotJoined(s: Run, w: Worker, m: Member): Reaction {
    if GuardTrips(s) then
      Reaction(w.(phase := Left(AbortGuard), skipsInRow := w.skipsInRow + 1), End(m, NotJoined))
    else if w.skipsInRow + 1 >= SKIPS_BEFORE_REST then
      Reaction(w.(phase := Pausing(true), skipsInRow := 0), End(m, NotJoined))
    else
      Reaction(w.(phase := Pausing(false), skipsInRow := w.skipsInRow + 1), End(m, NotJoined))
  }

  function AfterAnswer(s: Run, w: Worker, m: Member, o: Outcome, breakNow: bool): Reaction {
    match o
    case NotJoined => AfterNotJoined(s, w, m)
    case Joined =>
      Reaction(w.(phase := if breakNow then Breaking else Pausing(false),
                  strikes := 0, added := w.added + 1, skipsInRow := 0),
               End(m, Joined))
    case FloodWaited => Reaction(w.(phase := Left(FloodWaitExit)), End(m, o))
    case TooManyChannels => Reaction(w.(phase := AtLoop), End(m, o))
    case _ => Reaction(w.(phase := Pausing(false)), End(m, o))
  }

  function AfterInvite(s: Run, w: Worker, m: Member, r: InviteReply, breakNow: bool): Reaction {
    match r
    case PeerFlood => Flood(w, m)
    case WriteForbidden => Reaction(w.(phase := Left(Forbidden)), PutBack(m))
    case Answered(o) => AfterAnswer(s, w, m, o, breakNow)
  }

  /** The steps that only move the worker on: starting up, and the ends of the waits. */
  function AfterWait(w: Worker, c: Choice): Reaction {
    if c.StopSeen? then Leave(w, Stopped)
    else match w.phase
         case Launching => if c.Go? then Move(w, Connecting) else Leave(w, NeverStarted)
         case Connecting => if c.Go? then Move(w, AtLoop) else Leave(w, NeverStarted)
         case Cooling => if w.strikes >= MAX_STRIKES then Leave(w, StruckOut) else Move(w, AtLoop)
         case Breaking => Move(w, Pausing(false))
         case _ => Move(w, AtLoop)
  }

  function React(s: Run, w: Worker, c: Choice): Reaction
    requires Possible(s, w, c)
  {
    match w.phase
    case AtLoop => AtLoopHead(s, w)
    case Resolving(m, byId) => AfterResolve(w, m, byId, c)
    case Throttled(m) => AfterThrottle(s, w, m)
    case Inviting(m) => AfterInvite(s, w, m, c.reply, c.breakNow)
    case _ => AfterWait(w, c)
  }

  /** Consecutive failures over all workers: a join resets them; not-joined and privacy add one. */
  function FailsAfter(fails: nat, o: Outcome): nat {
    if o.Joined? then 0 else if o.NotJoined? || o.Privacy? then fails + 1 else fails
  }

  /** A member is finished: its counter, the log, the guard and the shared set. */
  function Finish(s: Run, m: Member, o: Outcome): Run {
    s.(added := s.added + (if o.Joined? then 1 else 0),
       failed := s.failed + (if o.IsFailed() then 1 else 0),
       skipped := s.skipped + (if o.IsSkipped() then 1 else 0),
       globalFails := FailsAfter(s.globalFails, o),
       stopEvent := s.stopEvent || (o.NotJoined? && GuardTrips(s)),
       blocked := if o.Blocks() then s.blocked + {m.uid} else s.blocked,
       log := s.log + [Finished(m, o)])
  }

  function Apply(s: Run, e: Effect): Run
    requires e.Take? || e.BarHead? ==> s.queue != []
  {
    match e
    case Nothing => s
    case Take(m) => s.(queue := s.queue[1..], dequeues := s.dequeues + 1)
    case BarHead(m) => Finish(s.(queue := s.queue[1..], dequeues := s.dequeues + 1), m, Barred)
    case PutBack(m) => s.(queue := s.queue + [m])
    case End(m, o) => Finish(s, m, o)
  }

  function Next(s: Run, e: Event): Run
    requires Enabled(s, e)
  {
    match e
    case RaiseStop => s.(stopEvent := true)
    case SetFlags(requested, parallel) => s.(stopRequested := requested, stopParallel := parallel)
    case Learn(uid) => s.(blocked := s.blocked + {uid})
    case Step(i, c) =>
      var r := React(s, s.workers[i], c);
      Apply(s, r.effect).(workers := s.workers[i := r.worker])
  }

  /** A run starts with distinct members queued, any leftover strike counts, and clear counters and flags. */
  ghost predicate Init(s: Run) {
    && (forall i, j :: 0 <= i < j < |s.queue| ==> s.queue[i].uid != s.queue[j].uid)
    && (forall i :: 0 <= i < |s.workers| ==>
          s.workers[i].phase == Launching && s.workers[i].added == 0 && s.workers[i].skipsInRow == 0)
    && s.added == s.failed == s.skipped == s.globalFails == s.dequeues == 0
    && !s.stopEvent && !s.stopRequested && !s.stopParallel
    && s.log == []
  }

  /** es leads from s to t. */
  ghost predicate Leads(s: Run, es: seq<Event>, t: Run)
    decreases |es|
  {
    if es == [] then s == t
    else Enabled(s, es[0]) && Leads(Next(s, es[0]), es[1..], t)
  }

  /** A run can be extended by one more event. */
  lemma {:induction false} LeadsLast(s: Run, es: seq<Event>, u: Run, e: Event)
    requires Leads(s, es, u) && Enabled(u, e)
    ensures Leads(s, es + [e], Next(u, e))
    decreases |es|
  {
    if es == [] {
      assert (es + [e])[1..] == [];
    } else {
      assert (es + [e])[1..] == es[1..] + [e];
      LeadsLast(Next(s, es[0]), es[1..], u, e);
    }
  }

  predicate AllLeft(s: Run) {
    forall i :: 0 <= i < |s.workers| ==> s.workers[i].phase.Left?
  }
}
