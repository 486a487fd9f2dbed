/** What every schedule of the parallel add run keeps, and how long it can last. */
module AddRunProofs {
  import opened Common
  import opened AddRun

  // ---------------------------------------------------------------- what one reaction does to a worker

  function InHand(w: Worker): Option<Member> {
    match w.phase
    case Resolving(m, _) => Some(m)
    case Throttled(m) => Some(m)
    case Inviting(m) => Some(m)
    case _ => None
  }

  /** How many more times a worker can put a member back before its next success. */
  function Credit(w: Worker): nat {
    if w.phase.Left? then 0
    else if w.strikes < MAX_STRIKES then MAX_STRIKES - w.strikes
    else if w.phase.Cooling? then 0
    else 1
  }

  function PhaseRank(w: Worker): int {
    match w.phase
    case Left(_) => 0
    case AtLoop => 1
    case Pausing(_) => 2
    case Cooling => 2
    case Connecting => 2
    case Breaking => 3
    case Launching => 3
    case Inviting(_) => 4
    case Throttled(_) => 5
    case Resolving(_, byId) => if byId then 6 else 7
  }

  function InvitingOne(w: Worker): int { if w.phase.Inviting? then 1 else 0 }

  /** How a worker's hand, credit, rank and invitation move with each kind of effect. */
  ghost predicate Sound(s: Run, w: Worker, r: Reaction) {
    var w' := r.worker;
    match r.effect
    case Nothing =>
      && InHand(w') == InHand(w) && Credit(w') <= Credit(w) && PhaseRank(w') < PhaseRank(w)
      && (InvitingOne(w') > InvitingOne(w) ==> !s.stopEvent)
    case Take(m) =>
      && s.queue != [] && m == s.queue[0] && InHand(w) == None && InHand(w') == Some(m)
      && Credit(w') <= Credit(w) && PhaseRank(w') <= PhaseRank(w) + 6
      && InvitingOne(w') == InvitingOne(w)
    case BarHead(m) => s.queue != [] && m == s.queue[0] && w' == w
    case PutBack(m) =>
      && InHand(w) == Some(m) && InHand(w') == None && Credit(w') + 1 <= Credit(w)
      && PhaseRank(w') < PhaseRank(w) && InvitingOne(w') <= InvitingOne(w)
    case End(m, o) =>
      && InHand(w) == Some(m) && InHand(w') == None && o != Barred
      && Credit(w') <= Credit(w) + (if o.Joined? then 5 else 0) && PhaseRank(w') < PhaseRank(w)
      && InvitingOne(w') <= InvitingOne(w) - (if o.NotJoined? then 1 else 0)
  }

  lemma ReactionsAreSound(s: Run, w: Worker, c: Choice)
    requires Possible(s, w, c)
    ensures Sound(s, w, React(s, w, c))
  {
  }

  // ---------------------------------------------------------------- conservation

  function Is(m: Member): Member -> int { x => if x == m then 1 else 0 }

  function HeldBy(m: Member): Worker -> int { w => if InHand(w) == Some(m) then 1 else 0 }

  function DoneWith(m: Member): Finished -> int { (f: Finished) => if f.member == m then 1 else 0 }

  /** How often m occurs in the queue, in workers' hands and among the finished, taken together. */
  function Places(s: Run, m: Member): int {
    Total(Is(m), s.queue) + Total(HeldBy(m), s.workers) + Total(DoneWith(m), s.log)
  }

  function HandSize(w: Worker): int { if InHand(w).Some? then 1 else 0 }

  function Size(s: Run): int { |s.queue| + Total(HandSize, s.workers) + |s.log| }

  lemma StepKeepsPlaces(s: Run, i: nat, r: Reaction, m: Member)
    requires i < |s.workers| && Sound(s, s.workers[i], r)
    ensures Places(Apply(s, r.effect).(workers := s.workers[i := r.worker]), m) == Places(s, m)
    ensures Size(Apply(s, r.effect).(workers := s.workers[i := r.worker])) == Size(s)
  {
    TotalUpdate(HeldBy(m), s.workers, i, r.worker);
    TotalUpdate(HandSize, s.workers, i, r.worker);
    match r.effect
    case Nothing =>
    case Take(x) =>
    case BarHead(x) => TotalAppend(DoneWith(m), s.log, Finished(x, Barred));
    case PutBack(x) => TotalAppend(Is(m), s.queue, x);
    case End(x, o) => TotalAppend(DoneWith(m), s.log, Finished(x, o));
  }

  // ---------------------------------------------------------------- tallies

  function JoinedOne(f: Finished): int { if f.outcome.Joined? then 1 else 0 }

  function FailedOne(f: Finished): int { if f.outcome.IsFailed() then 1 else 0 }

  function SkippedOne(f: Finished): int { if f.outcome.IsSkipped() then 1 else 0 }

  function NotJoinedOne(f: Finished): int { if f.outcome.NotJoined? then 1 else 0 }

  /** The three counters are the numbers of finished members of the three kinds. */
  ghost predicate Tallied(s: Run) {
    && s.added == Total(JoinedOne, s.log)
    && s.failed == Total(FailedOne, s.log)
    && s.skipped == Total(SkippedOne, s.log)
    && |s.log| == s.added + s.failed + s.skipped
  }

  lemma FinishKeepsTallies(s: Run, m: Member, o: Outcome)
    requires Tallied(s)
    ensures Tallied(Finish(s, m, o))
  {
    TotalAppend(JoinedOne, s.log, Finished(m, o));
    TotalAppend(FailedOne, s.log, Finished(m, o));
    TotalAppend(SkippedOne, s.log, Finished(m, o));
  }

  lemma ApplyKeepsTallies(s: Run, e: Effect)
    requires Tallied(s) && (e.Take? || e.BarHead? ==> s.queue != [])
    ensures Tallied(Apply(s, e))
  {
    match e
    case BarHead(m) => FinishKeepsTallies(s.(queue := s.queue[1..], dequeues := s.dequeues + 1), m, Barred);
    case End(m, o) => FinishKeepsTallies(s, m, o);
    case _ =>
  }

  // ---------------------------------------------------------------- fuel: what bounds the run

  function Cost(w: Worker): int { Credit(w) + (if InHand(w).Some? then 5 else 0) }

  function Fuel(s: Run): int { 6 * |s.queue| + Total(Cost, s.workers) }

  function Rank(s: Run): int { 7 * Fuel(s) + Total(PhaseRank, s.workers) }

  /** Each dequeue burns one unit of fuel, no step adds any, and every worker step lowers the rank. */
  lemma StepBurnsFuel(s: Run, i: nat, r: Reaction)
    requires i < |s.workers| && Sound(s, s.workers[i], r)
    ensures var t := Apply(s, r.effect).(workers := s.workers[i := r.worker]);
            Fuel(t) + t.dequeues <= Fuel(s) + s.dequeues && Rank(t) < Rank(s)
  {
    TotalUpdate(Cost, s.workers, i, r.worker);
    TotalUpdate(PhaseRank, s.workers, i, r.worker);
  }

  lemma FuelNonNegative(s: Run)
    ensures Fuel(s) >= 0 && Rank(s) >= 0
  {
    TotalBounds(Cost, s.workers, 0, 11);
    TotalBounds(PhaseRank, s.workers, 0, 7);
  }

  lemma FuelAtStart(s: Run)
    requires Init(s)
    ensures Fuel(s) <= 6 * (|s.queue| + |s.workers|)
    ensures Rank(s) <= 42 * |s.queue| + 45 * |s.workers|
  {
    TotalBounds(Cost, s.workers, 0, 6);
    TotalBounds(PhaseRank, s.workers, 3, 3);
  }

  // ---------------------------------------------------------------- the abort guard

  /**
   * While nobody has joined: without the stop event at most 24 members have come back "not joined",
   * and those plus the invitations in flight never exceed 24 plus the number of workers.
   */
  ghost predicate Guarded(s: Run) {
    s.added == 0 ==>
      && Total(NotJoinedOne, s.log) <= s.globalFails
      && (!s.stopEvent ==> Total(NotJoinedOne, s.log) <= ABORT_AFTER_FAILS - 1)
      && Total(NotJoinedOne, s.log) + Total(InvitingOne, s.workers) <= ABORT_AFTER_FAILS - 1 + |s.workers|
  }

  lemma StepKeepsGuard(s: Run, i: nat, r: Reaction)
    requires i < |s.workers| && Sound(s, s.workers[i], r) && Guarded(s)
    ensures Guarded(Apply(s, r.effect).(workers := s.workers[i := r.worker]))
  {
    TotalUpdate(InvitingOne, s.workers, i, r.worker);
    TotalBounds(InvitingOne, s.workers[i := r.worker], 0, 1);
    match r.effect
    case BarHead(m) => TotalAppend(NotJoinedOne, s.log, Finished(m, Barred));
    case End(m, o) => TotalAppend(NotJoinedOne, s.log, Finished(m, o));
    case _ =>
  }

  // ---------------------------------------------------------------- the shared blocked set

  /** The set held by the workers has only grown, and holds every id that ended with a blocking outcome. */
  ghost predicate BlockedTruth(s0: Run, s: Run) {
    && s0.blocked <= s.blocked
    && (forall f :: f in s.log && f.outcome.Blocks() ==> f.member.uid in s.blocked)
  }

  lemma ApplyKeepsBlocked(s0: Run, s: Run, e: Effect)
    requires BlockedTruth(s0, s) && (e.Take? || e.BarHead? ==> s.queue != [])
    ensures BlockedTruth(s0, Apply(s, e))
  {
  }

  // ---------------------------------------------------------------- the invariant of every run

  ghost predicate Inv(s0: Run, s: Run) {
    && |s.workers| == |s0.workers|
    && (forall m :: Places(s, m) == Places(s0, m))
    && Size(s) == Size(s0)
    && Tallied(s)
    && Fuel(s) + s.dequeues <= Fuel(s0)
    && Guarded(s)
    && BlockedTruth(s0, s)
  }

  lemma InvInit(s0: Run)
    requires Init(s0)
    ensures Inv(s0, s0)
  {
    TotalBounds(InvitingOne, s0.workers, 0, 0);
  }

  /** Every step, of a worker or from outside, keeps the invariant; a worker's step lowers the rank. */
  lemma InvStep(s0: Run, s: Run, e: Event)
    requires Inv(s0, s) && Enabled(s, e)
    ensures Inv(s0, Next(s, e))
    ensures if e.Step? then Rank(Next(s, e)) < Rank(s) else Rank(Next(s, e)) == Rank(s)
  {
    if e.Step? {
      var r := React(s, s.workers[e.w], e.choice);
      ReactionsAreSound(s, s.workers[e.w], e.choice);
      InvReaction(s0, s, e.w, r);
    } else {
      InvOutside(s0, s, Next(s, e));
    }
  }

  lemma InvReaction(s0: Run, s: Run, i: nat, r: Reaction)
    requires Inv(s0, s) && i < |s.workers| && Sound(s, s.workers[i], r)
    ensures var t := Apply(s, r.effect).(workers := s.workers[i := r.worker]); Inv(s0, t) && Rank(t) < Rank(s)
  {
    forall m ensures Places(Apply(s, r.effect).(workers := s.workers[i := r.worker]), m) == Places(s0, m) {
      StepKeepsPlaces(s, i, r, m);
    }
    StepKeepsPlaces(s, i, r, Member(0, false));
    ApplyKeepsTallies(s, r.effect);
    StepBurnsFuel(s, i, r);
    StepKeepsGuard(s, i, r);
    ApplyKeepsBlocked(s0, s, r.effect);
  }

  /** A change of the stop flags, or another task adding to the shared set. */
  lemma InvOutside(s0: Run, s: Run, t: Run)
    requires Inv(s0, s)
    requires t == s.(stopEvent := t.stopEvent, stopRequested := t.stopRequested,
                     stopParallel := t.stopParallel, blocked := t.blocked)
    requires (s.stopEvent ==> t.stopEvent) && s.blocked <= t.blocked
    ensures Inv(s0, t) && Rank(t) == Rank(s)
  {
    assert forall m :: Places(t, m) == Places(s, m);
  }

  function StepsIn(es: seq<Event>): nat {
    if es == [] then 0 else (if es[0].Step? then 1 else 0) + StepsIn(es[1..])
  }

  lemma {:induction false} InvRun(s0: Run, s: Run, es: seq<Event>, t: Run)
    requires Inv(s0, s) && Leads(s, es, t)
    ensures Inv(s0, t)
    ensures StepsIn(es) <= Rank(s) - Rank(t)
    decreases |es|
  {
    if es != [] {
      InvStep(s0, s, es[0]);
      InvRun(s0, Next(s, es[0]), es[1..], t);
    }
  }

  // ---------------------------------------------------------------- the theorems

  /** Every run is finite, with numeric bounds on the worker steps and on the dequeues. */
  lemma RunIsBounded(s0: Run, es: seq<Event>, t: Run)
    requires Init(s0) && Leads(s0, es, t)
    ensures t.dequeues <= 6 * (|s0.queue| + |s0.workers|)
    ensures StepsIn(es) <= 42 * |s0.queue| + 45 * |s0.workers|
  {
    InvInit(s0);
    InvRun(s0, s0, es, t);
    FuelNonNegative(t);
    FuelAtStart(s0);
  }

  /** No worker is ever stuck: until it has left, it has a step, so with the bound above all workers leave. */
  lemma WorkersNeverStuck(s: Run, i: nat)
    requires i < |s.workers| && !s.workers[i].phase.Left?
    ensures exists c :: Enabled(s, Step(i, c))
  {
    if s.workers[i].phase.Inviting? {
      assert Enabled(s, Step(i, Invite(PeerFlood, false)));
    } else {
      assert Enabled(s, Step(i, Go));
    }
  }

  /** From every state the workers can all be brought to an end, and with the bound they all are, in any schedule. */
  lemma {:induction false} RunsCanFinish(s: Run) returns (es: seq<Event>, t: Run)
    ensures Leads(s, es, t) && AllLeft(t) && StepsIn(es) == |es| <= Rank(s)
    decreases Rank(s)
  {
    FuelNonNegative(s);
    if i :| 0 <= i < |s.workers| && !s.workers[i].phase.Left? {
      WorkersNeverStuck(s, i);
      var c :| Enabled(s, Step(i, c));
      ReactionsAreSound(s, s.workers[i], c);
      StepBurnsFuel(s, i, React(s, s.workers[i], c));
      var u := Next(s, Step(i, c));
      FuelNonNegative(u);
      var rest;
      rest, t := RunsCanFinish(u);
      es := [Step(i, c)] + rest;
      assert es[1..] == rest;
    } else {
      es, t := [], s;
    }
  }

  lemma {:induction false} CountsAtMostOne(q: seq<Member>, m: Member)
    requires forall i, j :: 0 <= i < j < |q| ==> q[i].uid != q[j].uid
    ensures Total(Is(m), q) == if m in q then 1 else 0
  {
    if q != [] {
      CountsAtMostOne(q[1..], m);
    }
  }

  /** At least as many entries of the log are about m as there are positions known to be. */
  lemma {:induction false} DoneCounts(log: seq<Finished>, m: Member, i: nat, j: nat)
    requires i <= j < |log| && log[i].member == log[j].member == m
    ensures Total(DoneWith(m), log) >= if i < j then 2 else 1
  {
    TotalBounds(DoneWith(m), log[1..], 0, 1);
    if i > 0 {
      DoneCounts(log[1..], m, i - 1, j - 1);
    } else if j > 0 {
      DoneCounts(log[1..], m, j - 1, j - 1);
    }
  }

  lemma PlacesAtStart(s: Run, m: Member)
    requires Init(s)
    ensures Places(s, m) == if m in s.queue then 1 else 0
  {
    CountsAtMostOne(s.queue, m);
    TotalBounds(HeldBy(m), s.workers, 0, 0);
  }

  /**
   * Conservation: in every reachable state each queued member is in exactly one place (queue, some
   * worker's hands, finished) and nobody else is anywhere, the three counters add up to the finished
   * members, and nobody is finished twice.
   */
  lemma RunConserves(s0: Run, es: seq<Event>, t: Run)
    requires Init(s0) && Leads(s0, es, t)
    ensures forall m :: Places(t, m) == if m in s0.queue then 1 else 0
    ensures Tallied(t)
    ensures forall i, j :: 0 <= i < j < |t.log| ==> t.log[i].member.uid != t.log[j].member.uid
  {
    InvInit(s0);
    InvRun(s0, s0, es, t);
    forall m ensures Places(t, m) == if m in s0.queue then 1 else 0 {
      PlacesAtStart(s0, m);
    }
    forall i, j | 0 <= i < j < |t.log| ensures t.log[i].member.uid != t.log[j].member.uid {
      FinishedOnce(s0, t, i, j);
    }
  }

  lemma FinishedOnce(s0: Run, t: Run, i: nat, j: nat)
    requires Init(s0) && i < j < |t.log|
    requires forall m :: Places(t, m) == if m in s0.queue then 1 else 0
    ensures t.log[i].member.uid != t.log[j].member.uid
  {
    var a := t.log[i].member;
    FinishedWasQueued(s0, t, i);
    FinishedWasQueued(s0, t, j);
    TotalBounds(Is(a), t.queue, 0, 1);
    TotalBounds(HeldBy(a), t.workers, 0, 1);
    if a.uid == t.log[j].member.uid {
      DoneCounts(t.log, a, i, j);
      assert false;
    }
  }

  lemma FinishedWasQueued(s0: Run, t: Run, i: nat)
    requires i < |t.log|
    requires forall m :: Places(t, m) == if m in s0.queue then 1 else 0
    ensures t.log[i].member in s0.queue
  {
    var a := t.log[i].member;
    TotalBounds(Is(a), t.queue, 0, 1);
    TotalBounds(HeldBy(a), t.workers, 0, 1);
    DoneCounts(t.log, a, i, i);
    assert Places(t, a) >= 1;
  }

  /** When all workers have left, what is unaccounted for is exactly what is still queued. */
  lemma RunEndsComplete(s0: Run, es: seq<Event>, t: Run)
    requires Init(s0) && Leads(s0, es, t) && AllLeft(t)
    ensures t.added + t.failed + t.skipped + |t.queue| == |s0.queue|
    ensures t.added + t.failed + t.skipped == |s0.queue| <==> t.queue == []
  {
    InvInit(s0);
    InvRun(s0, s0, es, t);
    TotalBounds(HandSize, s0.workers, 0, 0);
    TotalBounds(HandSize, t.workers, 0, 0);
  }

  /** If the last worker to leave leaves because the queue is empty, every member is accounted for. */
  lemma LastLeavesEmptyQueue(s0: Run, es: seq<Event>, u: Run, i: nat)
    requires Init(s0) && Leads(s0, es, u)
    requires i < |u.workers| && u.workers[i].phase.AtLoop? && u.queue == []
    requires forall j :: 0 <= j < |u.workers| && j != i ==> u.workers[j].phase.Left?
    ensures var t := Next(u, Step(i, Go));
            AllLeft(t) && t.added + t.failed + t.skipped == |s0.queue|
  {
    LeadsLast(s0, es, u, Step(i, Go));
    RunEndsComplete(s0, es + [Step(i, Go)], Next(u, Step(i, Go)));
  }

  /** The leaving step puts a member back: stopped after the throttle, or refused write access. */
  predicate PutsBackLeaving(w: Worker, c: Choice) {
    w.phase.Throttled? || (w.phase.Inviting? && c.Invite? && c.reply.WriteForbidden?)
  }

  /**
   * Exactly when a run accounts for everybody: when the last worker to leave leaves an empty queue, and
   * does not itself put a member back in leaving.
   */
  lemma AllAccountedIff(s0: Run, es: seq<Event>, u: Run, i: nat, c: Choice)
    requires Init(s0) && Leads(s0, es, u) && Enabled(u, Step(i, c))
    requires forall j :: 0 <= j < |u.workers| && j != i ==> u.workers[j].phase.Left?
    requires Next(u, Step(i, c)).workers[i].phase.Left?
    ensures var t := Next(u, Step(i, c));
            t.added + t.failed + t.skipped == |s0.queue|
            <==> u.queue == [] && !PutsBackLeaving(u.workers[i], c)
  {
    var t := Next(u, Step(i, c));
    LeadsLast(s0, es, u, Step(i, c));
    RunEndsComplete(s0, es + [Step(i, c)], t);
    LeavingMoves(u, u.workers[i], c);
  }

  lemma LeavingMoves(s: Run, w: Worker, c: Choice)
    requires Possible(s, w, c) && React(s, w, c).worker.phase.Left?
    ensures React(s, w, c).effect.PutBack? <==> PutsBackLeaving(w, c)
    ensures !React(s, w, c).effect.Take? && !React(s, w, c).effect.BarHead?
  {
  }

  /** Bounded overshoot: as long as nobody has joined, "invited but not a member" comes back at most 24 + W times. */
  lemma OvershootIsBounded(s0: Run, es: seq<Event>, t: Run)
    requires Init(s0) && Leads(s0, es, t)
    ensures t.added == 0 ==> Total(NotJoinedOne, t.log) <= 24 + |s0.workers|
    ensures t.added == 0 && !t.stopEvent ==> Total(NotJoinedOne, t.log) <= 24
  {
    InvInit(s0);
    InvRun(s0, s0, es, t);
    TotalBounds(InvitingOne, t.workers, 0, 1);
  }

  /** The set the workers share only grows, and ends up with every id that got a blocking outcome. */
  lemma BlockedSetIsTruthful(s0: Run, es: seq<Event>, t: Run)
    requires Init(s0) && Leads(s0, es, t)
    ensures s0.blocked <= t.blocked
    ensures forall f :: f in t.log && f.outcome.Blocks() ==> f.member.uid in t.blocked
  {
    InvInit(s0);
    InvRun(s0, s0, es, t);
  }

  // ---------------------------------------------------------------- two things the run does not promise

  lemma {:induction false} LeadsTogether(s: Run, es: seq<Event>, u: Run, fs: seq<Event>, t: Run)
    requires Leads(s, es, u) && Leads(u, fs, t)
    ensures Leads(s, es + fs, t)
    decreases |es|
  {
    if es == [] {
      assert es + fs == fs;
    } else {
      assert (es + fs)[1..] == es[1..] + fs;
      LeadsTogether(Next(s, es[0]), es[1..], u, fs, t);
    }
  }

  function Solo(queue: seq<Member>, phase: Phase, fails: nat, log: seq<Finished>, blocked: set<int>, taken: nat): Run {
    Run(queue, [Worker(phase, 0, 0, 0)], 0, 0, |log|, fails, false, false, false, blocked, log, taken)
  }

  /** One worker takes the next member, invites it, is told "privacy", and pauses. */
  const PRIVACY_ROUND: seq<Event> :=
    [Step(0, Go), Step(0, Go), Step(0, Go), Step(0, Invite(Answered(Privacy), false)), Step(0, Go)]

  lemma PrivacySteps(queue: seq<Member>, fails: nat, log: seq<Finished>, blocked: set<int>, taken: nat)
    requires queue != [] && !IsBarred(queue[0].uid, blocked)
    ensures var m, rest, go := queue[0], queue[1..], Step(0, Go);
            var log', blocked' := log + [Finished(m, Privacy)], blocked + {m.uid};
            var s1 := Solo(rest, Resolving(m, false), fails, log, blocked, taken + 1);
            var s2 := Solo(rest, Throttled(m), fails, log, blocked, taken + 1);
            var s3 := Solo(rest, Inviting(m), fails, log, blocked, taken + 1);
            var s4 := Solo(rest, Pausing(false), fails + 1, log', blocked', taken + 1);
            && Next(Solo(queue, AtLoop, fails, log, blocked, taken), go) == s1
            && Next(s1, go) == s2 && Next(s2, go) == s3
            && Next(s3, Step(0, Invite(Answered(Privacy), false))) == s4
            && Next(s4, go) == Solo(rest, AtLoop, fails + 1, log', blocked', taken + 1)
  {
  }

  lemma PrivacyRound(queue: seq<Member>, fails: nat, log: seq<Finished>, blocked: set<int>, taken: nat)
    requires queue != [] && !IsBarred(queue[0].uid, blocked)
    ensures Leads(Solo(queue, AtLoop, fails, log, blocked, taken), PRIVACY_ROUND,
                  Solo(queue[1..], AtLoop, fails + 1, log + [Finished(queue[0], Privacy)],
                       blocked + {queue[0].uid}, taken + 1))
  {
    var m, rest := queue[0], queue[1..];
    var log', blocked' := log + [Finished(m, Privacy)], blocked + {m.uid};
    var s0 := Solo(queue, AtLoop, fails, log, blocked, taken);
    var s1 := Solo(rest, Resolving(m, false), fails, log, blocked, taken + 1);
    var s2 := Solo(rest, Throttled(m), fails, log, blocked, taken + 1);
    var s3 := Solo(rest, Inviting(m), fails, log, blocked, taken + 1);
    var s4 := Solo(rest, Pausing(false), fails + 1, log', blocked', taken + 1);
    var s5 := Solo(rest, AtLoop, fails + 1, log', blocked', taken + 1);
    PrivacySteps(queue, fails, log, blocked, taken);
    assert Leads(s4, PRIVACY_ROUND[4..], s5);
    assert Leads(s3, PRIVACY_ROUND[3..], s5) by { assert PRIVACY_ROUND[3..][1..] == PRIVACY_ROUND[4..]; }
    assert Leads(s2, PRIVACY_ROUND[2..], s5) by { assert PRIVACY_ROUND[2..][1..] == PRIVACY_ROUND[3..]; }
    assert Leads(s1, PRIVACY_ROUND[1..], s5) by { assert PRIVACY_ROUND[1..][1..] == PRIVACY_ROUND[2..]; }
  }

  lemma {:induction false} PrivacyRounds(queue: seq<Member>, fails: nat, log: seq<Finished>, blocked: set<int>,
                                         taken: nat)
    returns (es: seq<Event>, t: Run)
    requires forall i :: 0 <= i < |queue| ==> !IsBarred(queue[i].uid, blocked)
    requires forall i, j :: 0 <= i < j < |queue| ==> queue[i].uid != queue[j].uid
    ensures Leads(Solo(queue, AtLoop, fails, log, blocked, taken), es, t)
    ensures t.globalFails == fails + |queue| && t.added == 0 && !t.stopEvent
  {
    if queue == [] {
      es, t := [], Solo(queue, AtLoop, fails, log, blocked, taken);
    } else {
      var log', blocked' := log + [Finished(queue[0], Privacy)], blocked + {queue[0].uid};
      PrivacyRound(queue, fails, log, blocked, taken);
      var fs;
      fs, t := PrivacyRounds(queue[1..], fails + 1, log', blocked', taken + 1);
      es := PRIVACY_ROUND + fs;
      LeadsTogether(Solo(queue, AtLoop, fails, log, blocked, taken), PRIVACY_ROUND,
                    Solo(queue[1..], AtLoop, fails + 1, log', blocked', taken + 1), fs, t);
    }
  }

  /**
   * The abort guard does not bound privacy refusals: for every k there is a run in which k invitations
   * in a row fail, nobody joins, and the guard has still not stopped anything.
   */
  lemma PrivacyNeverTripsGuard(k: nat)
    requires k < 99999989999
    ensures exists s0: Run, es: seq<Event>, t: Run ::
              Init(s0) && Leads(s0, es, t) && t.globalFails == k && t.added == 0 && !t.stopEvent
  {
    var queue := seq(k, i requires 0 <= i < k => Member(10001 + i, true));
    var s0 := Solo(queue, Launching, 0, [], {}, 0);
    var s1 := Solo(queue, Connecting, 0, [], {}, 0);
    var s2 := Solo(queue, AtLoop, 0, [], {}, 0);
    var es, t := PrivacyRounds(queue, 0, [], {}, 0);
    assert Next(s0, Step(0, Go)) == s1 && Next(s1, Step(0, Go)) == s2;
    LeadsTogether(s1, [Step(0, Go)], s2, es, t);
    LeadsTogether(s0, [Step(0, Go)], s1, [Step(0, Go)] + es, t);
    assert Init(s0) && Leads(s0, [Step(0, Go)] + ([Step(0, Go)] + es), t);
  }

  /**
   * A worker that leaves because the queue is empty does not mean the queue is finished: another worker
   * may still put its member back.  Here worker 1 leaves that way, worker 0 is refused write access,
   * and the run ends, without any stop, with its only member still queued.
   */
  lemma EmptyQueueExitMayLeaveMembers()
    ensures exists s0: Run, es: seq<Event>, t: Run ::
              && Init(s0) && Leads(s0, es, t) && AllLeft(t) && !t.stopEvent && |t.workers| == 2
              && t.workers[1].phase == Left(QueueEmpty) && t.queue == s0.queue != [] && t.log == []
  {
    var m := Member(20000, true);
    var s0 := Pair([m], Launching, Launching, 0);
    var u := Pair([], Resolving(m, false), Left(QueueEmpty), 1);
    var t := Pair([m], Left(Forbidden), Left(QueueEmpty), 1);
    var es := OneTakesOtherLeaves(m);
    var fs := RefusedAfterResolving(m);
    LeadsTogether(s0, es, u, fs, t);
    assert Init(s0) && AllLeft(t) && Leads(s0, es + fs, t);
  }

  /** Worker 0 takes the only member; worker 1 starts, finds the queue empty and leaves. */
  lemma OneTakesOtherLeaves(m: Member) returns (es: seq<Event>)
    requires !IsBarred(m.uid, {})
    ensures Leads(Pair([m], Launching, Launching, 0), es, Pair([], Resolving(m, false), Left(QueueEmpty), 1))
  {
    var a, b := Step(0, Go), Step(1, Go);
    var s1 := Pair([m], Connecting, Launching, 0);
    var s2 := Pair([m], AtLoop, Launching, 0);
    var s3 := Pair([], Resolving(m, false), Launching, 1);
    var s4 := Pair([], Resolving(m, false), Connecting, 1);
    var s5 := Pair([], Resolving(m, false), AtLoop, 1);
    var t := Pair([], Resolving(m, false), Left(QueueEmpty), 1);
    LeadsBack(s5, b, t, [], t);
    LeadsBack(s4, b, s5, [b] + [], t);
    LeadsBack(s3, b, s4, [b] + ([b] + []), t);
    es := [b] + ([b] + ([b] + []));
    LeadsBack(s2, a, s3, es, t);
    LeadsBack(s1, a, s2, [a] + es, t);
    LeadsBack(Pair([m], Launching, Launching, 0), a, s1, [a] + ([a] + es), t);
    es := [a] + ([a] + ([a] + es));
  }

  /** Worker 0 resolves and invites, is refused write access, puts the member back and leaves. */
  lemma RefusedAfterResolving(m: Member) returns (es: seq<Event>)
    ensures Leads(Pair([], Resolving(m, false), Left(QueueEmpty), 1), es,
                  Pair([m], Left(Forbidden), Left(QueueEmpty), 1))
  {
    var a, refuse := Step(0, Go), Step(0, Invite(WriteForbidden, false));
    var s1 := Pair([], Throttled(m), Left(QueueEmpty), 1);
    var s2 := Pair([], Inviting(m), Left(QueueEmpty), 1);
    var t := Pair([m], Left(Forbidden), Left(QueueEmpty), 1);
    LeadsBack(s2, refuse, t, [], t);
    LeadsBack(s1, a, s2, [refuse] + [], t);
    LeadsBack(Pair([], Resolving(m, false), Left(QueueEmpty), 1), a, s1, [a] + ([refuse] + []), t);
    es := [a] + ([a] + ([refuse] + []));
  }

  function Pair(queue: seq<Member>, a: Phase, b: Phase, taken: nat): Run {
    Run(queue, [Worker(a, 0, 0, 0), Worker(b, 0, 0, 0)], 0, 0, 0, 0, false, false, false, {}, [], taken)
  }

  lemma LeadsBack(s: Run, e: Event, u: Run, es: seq<Event>, t: Run)
    requires Enabled(s, e) && Next(s, e) == u && Leads(u, es, t)
    ensures Leads(s, [e] + es, t)
  {
    assert ([e] + es)[1..] == es;
  }
}
