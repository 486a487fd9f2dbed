/**
 * What the parallel add run does, said from outside: by the answers each worker got, by the numbers and
 * flags of the run, and by its queue and log, without the functions that compute a step.
 */
module AddRunLaws {
  import opened Common
  import opened AddRun
  import opened AddRunProofs
  import opened AddRunPromises

  // ---------------------------------------------------------------- a worker's own history

  /** What worker i was told, step by step. */
  function OwnChoices(es: seq<Event>, i: nat): seq<Choice> {
    if es == [] then []
    else (if es[0].Step? && es[0].w == i then [es[0].choice] else []) + OwnChoices(es[1..], i)
  }

  predicate IsJoin(c: Choice) { c.Invite? && c.reply == Answered(Joined) }

  predicate IsFlood(c: Choice) { c.Flooded? || (c.Invite? && c.reply.PeerFlood?) }

  function Joins(cs: seq<Choice>): nat {
    if cs == [] then 0 else (if IsJoin(cs[0]) then 1 else 0) + Joins(cs[1..])
  }

  /** The strikes to start with and the floods since, forgotten at each join. */
  function Strikes(start: nat, cs: seq<Choice>): nat
    decreases |cs|
  {
    if cs == [] then start
    else Strikes(if IsJoin(cs[0]) then 0 else if IsFlood(cs[0]) then start + 1 else start, cs[1..])
  }

  lemma OwnStep(s: Run, e: Event, i: nat)
    requires Enabled(s, e) && i < |s.workers|
    ensures var w, w' := s.workers[i], Next(s, e).workers[i];
            if e.Step? && e.w == i then
              && w'.strikes == (if IsJoin(e.choice) then 0 else if IsFlood(e.choice) then w.strikes + 1 else w.strikes)
              && w'.added == w.added + (if IsJoin(e.choice) then 1 else 0)
            else w' == w
  {
  }

  lemma {:induction false} OwnRun(s: Run, es: seq<Event>, t: Run, i: nat)
    requires Leads(s, es, t) && i < |s.workers|
    ensures |t.workers| == |s.workers|
    ensures t.workers[i].strikes == Strikes(s.workers[i].strikes, OwnChoices(es, i))
    ensures t.workers[i].added == s.workers[i].added + Joins(OwnChoices(es, i))
    decreases |es|
  {
    if es != [] {
      OwnStep(s, es[0], i);
      WorkersStay(s, es[0]);
      OwnRun(Next(s, es[0]), es[1..], t, i);
      OwnFirst(es, i);
    }
  }

  lemma OwnFirst(es: seq<Event>, i: nat)
    requires es != []
    ensures OwnChoices(es, i)
         == if es[0].Step? && es[0].w == i then [es[0].choice] + OwnChoices(es[1..], i) else OwnChoices(es[1..], i)
    ensures es[0].Step? && es[0].w == i ==>
              OwnChoices(es, i)[0] == es[0].choice && OwnChoices(es, i)[1..] == OwnChoices(es[1..], i)
  {
  }

  // ---------------------------------------------------------------- when a worker leaves, and where it goes else

  /** Nobody has joined, and 24 answers or more have failed since the run began. */
  ghost predicate OneShort(s: Run) {
    FailsSinceJoin(s.log) >= 24 && forall f :: f in s.log ==> !f.outcome.Joined?
  }

  /** A step from this phase, with this answer, is the worker's last; joins and strikes are its own so far. */
  ghost predicate Leaves(s: Run, phase: Phase, c: Choice, joins: nat, strikes: nat) {
    match phase
    case Launching => c.Fail? || c.StopSeen?
    case Connecting => c.Fail?
    case AtLoop => s.queue == [] || joins >= 100000 || s.stopEvent || s.stopRequested || s.stopParallel
    case Throttled(_) => s.stopEvent || s.stopRequested
    case Cooling => c.StopSeen? || strikes >= 6
    case Pausing(_) => c.StopSeen?
    case Breaking => c.StopSeen?
    case Inviting(_) =>
      c.Invite? &&
      (|| c.reply.WriteForbidden?
       || c.reply == Answered(FloodWaited)
       || (c.reply == Answered(NotJoined) && OneShort(s)))
    case _ => false
  }

  lemma {:induction false} NoJoins(log: seq<Finished>)
    ensures Total(JoinedOne, log) == 0 <==> forall f :: f in log ==> !f.outcome.Joined?
    ensures Total(JoinedOne, log) >= 0
  {
    if log != [] {
      NoJoins(log[1..]);
      assert log == [log[0]] + log[1..];
    }
  }

  lemma StepLeaves(s: Run, i: nat, c: Choice)
    requires Enabled(s, Step(i, c)) && !s.workers[i].phase.Inviting?
    ensures var w := s.workers[i];
            Next(s, Step(i, c)).workers[i].phase.Left? <==> Leaves(s, w.phase, c, w.added, w.strikes)
  {
  }

  lemma AnswerLeaves(s: Run, i: nat, c: Choice)
    requires Enabled(s, Step(i, c)) && s.workers[i].phase.Inviting?
    requires s.globalFails == FailsSinceJoin(s.log) && s.added == Total(JoinedOne, s.log)
    ensures var w := s.workers[i];
            Next(s, Step(i, c)).workers[i].phase.Left? <==> Leaves(s, w.phase, c, w.added, w.strikes)
  {
    NoJoins(s.log);
  }

  lemma OthersStay(s: Run, i: nat, c: Choice)
    requires Enabled(s, Step(i, c))
    ensures var t := Next(s, Step(i, c));
            |t.workers| == |s.workers| && forall j :: 0 <= j < |s.workers| && j != i ==> t.workers[j] == s.workers[j]
    ensures c.StopSeen? ==> s.stopEvent
  {
  }

  /**
   * The exit law: in every reachable state a step of a worker is its last exactly when starting or
   * connecting failed; a wait ended by the stop event; at the loop head the queue is empty, the worker has
   * joined 100000 itself, or some flag is up; the stop event or request is up after the throttle; the
   * cool-down ends with six strikes or more; it may not write there; it must wait for a flood; or it is told
   * "not joined" as the 25th failure of a run in which nobody joined.  Nobody else leaves by that step.
   */
  lemma ExitLaw(s0: Run, es: seq<Event>, s: Run, i: nat, c: Choice)
    requires Init(s0) && Leads(s0, es, s) && Enabled(s, Step(i, c)) && i < |s0.workers|
    ensures var t := Next(s, Step(i, c));
            && |t.workers| == |s.workers|
            && (t.workers[i].phase.Left? <==>
                  Leaves(s, s.workers[i].phase, c, Joins(OwnChoices(es, i)),
                         Strikes(s0.workers[i].strikes, OwnChoices(es, i))))
            && (forall j :: 0 <= j < |s.workers| && j != i ==> t.workers[j] == s.workers[j])
            && (c.StopSeen? ==> s.stopEvent)
  {
    OwnRun(s0, es, s, i);
    OthersStay(s, i, c);
    if s.workers[i].phase.Inviting? {
      CountersMeanWhatTheySay(s0, es, s);
      RunConserves(s0, es, s);
      AnswerLeaves(s, i, c);
    } else {
      StepLeaves(s, i, c);
    }
  }

  /** Out of Telegram's range, or held as blocked. */
  predicate OutOfBounds(uid: int, blocked: set<int>) { uid <= 10000 || uid >= 100000000000 || uid in blocked }

  /** Where a worker stands after a step that is not its last. */
  ghost predicate GoesOn(s: Run, c: Choice, phase: Phase, phase': Phase, skips: nat) {
    match phase
    case Launching => phase' == Connecting
    case Connecting => phase' == AtLoop
    case AtLoop => s.queue != [] && phase' == if OutOfBounds(s.queue[0].uid, s.blocked) then AtLoop
                                              else Resolving(s.queue[0], false)
    case Resolving(m, byId) =>
      phase' == if c.Go? then Throttled(m) else if c.Flooded? then Cooling
                else if m.named && !byId then Resolving(m, true) else AtLoop
    case Throttled(m) => phase' == Inviting(m)
    case Inviting(m) =>
      c.Invite? &&
      phase' == (if c.reply.PeerFlood? then Cooling
                 else if c.reply == Answered(TooManyChannels) then AtLoop
                 else if c.reply == Answered(Joined) && c.breakNow then Breaking
                 else Pausing(c.reply == Answered(NotJoined) && skips == 7))
    case Cooling => phase' == AtLoop
    case Breaking => phase' == Pausing(false)
    case Pausing(_) => phase' == AtLoop
    case Left(_) => false
  }

  lemma StepGoesOn(s: Run, i: nat, c: Choice)
    requires Enabled(s, Step(i, c)) && !s.workers[i].phase.Inviting?
    ensures var phase' := Next(s, Step(i, c)).workers[i].phase;
            phase'.Left? || GoesOn(s, c, s.workers[i].phase, phase', s.workers[i].skipsInRow)
  {
  }

  lemma AnswerGoesOn(s: Run, i: nat, c: Choice)
    requires Enabled(s, Step(i, c)) && s.workers[i].phase.Inviting? && s.workers[i].skipsInRow < 8
    ensures var phase' := Next(s, Step(i, c)).workers[i].phase;
            phase'.Left? || GoesOn(s, c, s.workers[i].phase, phase', s.workers[i].skipsInRow)
  {
  }

  /**
   * And a step that is not its last takes it to the next stage: a member is resolved, by its id if its name
   * failed, then throttled, then invited; every answer but "too many channels" is followed by a wait, long
   * after the eighth "not joined", with a break before it when one is due.
   */
  lemma StageLaw(s0: Run, es: seq<Event>, s: Run, i: nat, c: Choice)
    requires Init(s0) && Leads(s0, es, s) && Enabled(s, Step(i, c)) && i < |s0.workers|
    ensures var phase' := Next(s, Step(i, c)).workers[i].phase;
            phase'.Left? || GoesOn(s, c, s.workers[i].phase, phase', SkipsSince(Marks(s0, es, s, i)))
  {
    SkipsAreOwnAnswers(s0, es, s, i);
    if s.workers[i].phase.Inviting? {
      AnswerGoesOn(s, i, c);
    } else {
      StepGoesOn(s, i, c);
    }
  }

  /**
   * What can happen to a worker, by its phase: starting, connecting and resolving may fail, resolving may
   * meet a flood, an invitation gets any of the handled answers, and waits end by themselves or, once the
   * stop event is up, by that.
   */
  lemma WhatCanHappen(s: Run, i: nat, c: Choice)
    requires i < |s.workers|
    ensures Enabled(s, Step(i, c)) <==>
              match s.workers[i].phase
              case Launching => c == Go || c == Fail || (c == StopSeen && s.stopEvent)
              case Connecting => c == Go || c == Fail
              case AtLoop => c == Go
              case Resolving(_, _) => c == Go || c == Fail || c == Flooded
              case Throttled(_) => c == Go
              case Inviting(_) => c.Invite? && c.reply != Answered(Barred) && c.reply != Answered(Unresolved)
              case Left(_) => false
              case _ => c == Go || (c == StopSeen && s.stopEvent)
  {
  }

  // ---------------------------------------------------------------- the queue

  /** The members that one event takes from the front of the queue, and those it puts back. */
  ghost function TakenBy(s: Run, e: Event): seq<Member>
    requires Enabled(s, e)
  {
    if s.queue != [] && Next(s, e).dequeues > s.dequeues then [s.queue[0]] else []
  }

  function ReturnedBy(s: Run, e: Event): seq<Member>
    requires Enabled(s, e)
  {
    if e.Step? then
      match s.workers[e.w].phase
      case Resolving(m, _) => if e.choice.Flooded? then [m] else []
      case Throttled(m) => if s.stopEvent || s.stopRequested then [m] else []
      case Inviting(m) => if e.choice.reply.PeerFlood? || e.choice.reply.WriteForbidden? then [m] else []
      case _ => []
    else []
  }

  ghost function Taken(s: Run, es: seq<Event>, t: Run): seq<Member>
    requires Leads(s, es, t)
    decreases |es|
  {
    if es == [] then [] else TakenBy(s, es[0]) + Taken(Next(s, es[0]), es[1..], t)
  }

  ghost function Returned(s: Run, es: seq<Event>, t: Run): seq<Member>
    requires Leads(s, es, t)
    decreases |es|
  {
    if es == [] then [] else ReturnedBy(s, es[0]) + Returned(Next(s, es[0]), es[1..], t)
  }

  lemma ReturnedIs(s: Run, e: Event)
    requires Enabled(s, e) && e.Step?
    ensures var f := React(s, s.workers[e.w], e.choice).effect;
            ReturnedBy(s, e) == if f.PutBack? then [f.member] else []
  {
  }

  lemma QueueStep(s: Run, e: Event)
    requires Enabled(s, e)
    ensures s.queue + ReturnedBy(s, e) == TakenBy(s, e) + Next(s, e).queue
    ensures Next(s, e).dequeues == s.dequeues + |TakenBy(s, e)|
  {
    if e.Step? {
      ReactionsAreSound(s, s.workers[e.w], e.choice);
      ReturnedIs(s, e);
      EffectOnQueue(s, React(s, s.workers[e.w], e.choice).effect);
    }
  }

  lemma EffectOnQueue(s: Run, f: Effect)
    requires f.Take? || f.BarHead? ==> s.queue != [] && f.member == s.queue[0]
    ensures var t := Apply(s, f);
            && t.dequeues == s.dequeues + (if f.Take? || f.BarHead? then 1 else 0)
            && s.queue + (if f.PutBack? then [f.member] else [])
               == (if f.Take? || f.BarHead? then [f.member] else []) + t.queue
  {
    if s.queue != [] {
      assert s.queue == [s.queue[0]] + s.queue[1..];
    }
  }

  /** First in, first out: members are taken from the front in order, and put back at the end. */
  lemma {:induction false} QueueIsFifo(s: Run, es: seq<Event>, t: Run)
    requires Leads(s, es, t)
    ensures s.queue + Returned(s, es, t) == Taken(s, es, t) + t.queue
    ensures t.dequeues == s.dequeues + |Taken(s, es, t)|
    decreases |es|
  {
    if es == [] {
      assert s.queue + [] == [] + s.queue;
    } else {
      var u := Next(s, es[0]);
      QueueStep(s, es[0]);
      QueueIsFifo(u, es[1..], t);
      FifoChains(s.queue, ReturnedBy(s, es[0]), TakenBy(s, es[0]), u.queue,
                 Returned(u, es[1..], t), Taken(u, es[1..], t), t.queue);
    }
  }

  lemma FifoChains(q: seq<Member>, r: seq<Member>, k: seq<Member>, u: seq<Member>,
                   r': seq<Member>, k': seq<Member>, t: seq<Member>)
    requires q + r == k + u && u + r' == k' + t
    ensures q + (r + r') == k + k' + t
  {
    Regroup(q, r, r');
    Regroup(k, u, r');
    Regroup(k, k', t);
  }

  // ---------------------------------------------------------------- counters, range and the held set, in full

  function FailedEntry(f: Finished): int { if f.outcome.FloodWaited? || f.outcome.OtherError? then 1 else 0 }

  function SkippedEntry(f: Finished): int {
    if || f.outcome.NotJoined? || f.outcome.AlreadyIn? || f.outcome.Privacy? || f.outcome.InvalidPeer?
       || f.outcome.TooManyChannels? || f.outcome.Barred? || f.outcome.Unresolved?
    then 1 else 0
  }

  lemma {:induction false} EntriesAgree(log: seq<Finished>)
    ensures Total(FailedEntry, log) == Total(FailedOne, log) && Total(SkippedEntry, log) == Total(SkippedOne, log)
  {
    if log != [] {
      EntriesAgree(log[1..]);
    }
  }

  /**
   * Joined members count as added, flood waits and unknown errors as failed, all others as skipped; the set
   * the workers hold is what it was, the ids joined, not joined, already in, private or invalid, and what
   * other tasks added; and whoever is invited has an id between 10000 and 10^11 that was not blocked.
   */
  lemma OutcomesAreBooked(s0: Run, es: seq<Event>, t: Run)
    requires Init(s0) && Leads(s0, es, t)
    ensures t.added == Total(JoinedOne, t.log)
    ensures t.failed == Total(FailedEntry, t.log) && t.skipped == Total(SkippedEntry, t.log)
    ensures t.blocked
         == s0.blocked
          + (set f | f in t.log && (f.outcome.Joined? || f.outcome.NotJoined? || f.outcome.AlreadyIn?
                                    || f.outcome.Privacy? || f.outcome.InvalidPeer?) :: f.member.uid)
          + Learned(es)
    ensures forall i :: 0 <= i < |t.workers| && t.workers[i].phase.Inviting? ==>
              !OutOfBounds(t.workers[i].phase.member.uid, s0.blocked)
    ensures forall f :: f in t.log && f.outcome.Barred? ==> OutOfBounds(f.member.uid, t.blocked)
  {
    RunConserves(s0, es, t);
    EntriesAgree(t.log);
    BlockedSetIsExact(s0, es, t);
    OnlyUnblockedAreInvited(s0, es, t);
  }

  // ---------------------------------------------------------------- when everything goes well

  /** Nothing fails, nobody stops anything, and every answer is "joined". */
  ghost predicate AllWell(es: seq<Event>) {
    forall e :: e in es ==> e.Step? && (e.choice.Go? || IsJoin(e.choice))
  }

  ghost predicate Bright(s: Run) {
    && !s.stopEvent && !s.stopRequested && !s.stopParallel
    && (forall i :: 0 <= i < |s.workers| ==> !s.workers[i].phase.Cooling?)
    && (forall i :: 0 <= i < |s.workers| && s.workers[i].phase.Left? ==> s.queue == [] || s.workers[i].added >= 100000)
    && (forall f :: f in s.log ==> f.outcome.Joined? || f.outcome.Barred?)
  }

  lemma StaysBright(s: Run, e: Event)
    requires Bright(s) && Enabled(s, e) && e.Step? && (e.choice.Go? || IsJoin(e.choice))
    ensures Bright(Next(s, e))
  {
  }

  lemma {:induction false} BrightRun(s: Run, es: seq<Event>, t: Run)
    requires Bright(s) && Leads(s, es, t) && AllWell(es)
    ensures Bright(t) && Learned(es) == {}
    decreases |es|
  {
    if es != [] {
      assert es[0] in es && forall e :: e in es[1..] ==> e in es;
      StaysBright(s, es[0]);
      BrightRun(Next(s, es[0]), es[1..], t);
      LearnedSplit(es);
    }
  }

  lemma {:induction false} DoneIsLogged(log: seq<Finished>, m: Member)
    ensures Total(DoneWith(m), log) >= 0
    ensures Total(DoneWith(m), log) > 0 ==> exists k :: 0 <= k < |log| && log[k].member == m
  {
    if log != [] {
      DoneIsLogged(log[1..], m);
      if k :| 0 <= k < |log[1..]| && log[1..][k].member == m {
        assert log[k + 1].member == m;
      }
      if log[0].member == m {
        assert log[0].member == m;
      }
    }
  }

  /** With the queue empty and nobody at work, every member queued at the start is in the log. */
  lemma QueuedIsLogged(s0: Run, es: seq<Event>, t: Run, m: Member) returns (k: nat)
    requires Init(s0) && Leads(s0, es, t) && AllLeft(t) && t.queue == [] && m in s0.queue
    ensures k < |t.log| && t.log[k].member == m
  {
    RunConserves(s0, es, t);
    TotalBounds(HeldBy(m), t.workers, 0, 0);
    assert Places(t, m) == 1;
    DoneIsLogged(t.log, m);
    k :| 0 <= k < |t.log| && t.log[k].member == m;
  }

  /** An entry ended joined exactly if its id was in bounds when the run began. */
  lemma WellEnded(s0: Run, es: seq<Event>, t: Run, k: nat)
    requires Init(s0) && Leads(s0, es, t) && Bright(t) && Learned(es) == {} && k < |t.log|
    ensures t.log[k].outcome.Joined? <==> !OutOfBounds(t.log[k].member.uid, s0.blocked)
  {
    var f := t.log[k];
    RunConserves(s0, es, t);
    OnlyUnblockedAreInvited(s0, es, t);
    BlockedSetIsExact(s0, es, t);
    assert f in t.log;
    if f.outcome.Barred? {
      forall g | g in t.log && g.outcome.Blocks() ensures g.member.uid != f.member.uid {
        var j :| 0 <= j < |t.log| && t.log[j] == g;
      }
    }
  }

  /**
   * A run with at least one worker, in which nothing fails, nobody stops anything and every answer is
   * "joined", ends with every queued member joined whose id was in bounds when it began, and the others
   * barred, unless each worker has added 100000.
   */
  lemma EverybodyJoins(s0: Run, es: seq<Event>, t: Run)
    requires Init(s0) && Leads(s0, es, t) && AllLeft(t) && AllWell(es)
    ensures (forall i :: 0 <= i < |t.workers| ==> t.workers[i].added >= 100000)
         || (&& t.queue == []
             && forall m :: m in s0.queue ==>
                  exists k :: 0 <= k < |t.log| && t.log[k].member == m
                           && (OutOfBounds(m.uid, s0.blocked) ==> t.log[k].outcome.Barred?)
                           && (!OutOfBounds(m.uid, s0.blocked) ==> t.log[k].outcome.Joined?))
  {
    BrightRun(s0, es, t);
    if i :| 0 <= i < |t.workers| && t.workers[i].added < 100000 {
      forall m | m in s0.queue
        ensures exists k :: 0 <= k < |t.log| && t.log[k].member == m
                         && (OutOfBounds(m.uid, s0.blocked) ==> t.log[k].outcome.Barred?)
                         && (!OutOfBounds(m.uid, s0.blocked) ==> t.log[k].outcome.Joined?)
      {
        var k := QueuedIsLogged(s0, es, t, m);
        WellEnded(s0, es, t, k);
        assert t.log[k] in t.log;
      }
    }
  }
}
