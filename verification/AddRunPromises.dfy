/** What the counters, flags and sets of the parallel add run mean, in every schedule. */
module AddRunPromises {
  import opened Common
  import opened AddRun
  import opened AddRunProofs

  // ---------------------------------------------------------------- one reaction, seen more closely

  /** An answer from Telegram to an invitation, as opposed to a member ended without one. */
  function AnsweredOne(f: Finished): int { if f.outcome.Barred? || f.outcome.Unresolved? then 0 else 1 }

  function AddedBy(w: Worker): int { w.added }

  /** A worker never carries eight "not joined" in a row into its next turn: it rests, or has aborted the run. */
  predicate Rested(w: Worker) { w.phase.Left? || w.skipsInRow < SKIPS_BEFORE_REST }

  ghost predicate Careful(s: Run, w: Worker, r: Reaction) {
    && r.worker.added == w.added + (if r.effect.End? && r.effect.outcome.Joined? then 1 else 0)
    && (Rested(w) && !w.phase.Left? ==> Rested(r.worker))
    && (r.effect.Take? || r.effect.BarHead? ==>
          && s.queue != [] && r.effect.member == s.queue[0]
          && !s.stopEvent && !s.stopRequested && !s.stopParallel
          && (r.effect.BarHead? <==> IsBarred(r.effect.member.uid, s.blocked)))
    && (InHand(r.worker).Some? ==> InHand(r.worker) == InHand(w) || r.effect == Take(InHand(r.worker).value))
    && (r.effect.End? ==> InHand(w) == Some(r.effect.member) && r.effect.outcome != Barred)
    && InvitingOne(r.worker) + (if r.effect.End? then AnsweredOne(Finished(r.effect.member, r.effect.outcome)) else 0)
       <= InvitingOne(w) + (if s.stopEvent || s.stopRequested then 0 else 1)
    && HandSize(r.worker) + (if r.effect.End? then AnsweredOne(Finished(r.effect.member, r.effect.outcome)) else 0)
       <= HandSize(w) + (if r.effect.Take? then 1 else 0)
  }

  lemma ReactionsAreCareful(s: Run, w: Worker, c: Choice)
    requires Possible(s, w, c)
    ensures Careful(s, w, React(s, w, c))
  {
    match w.phase
    case AtLoop =>
    case Resolving(m, byId) =>
    case Throttled(m) =>
    case Inviting(m) => InvitesAreCareful(s, w, m, c.reply, c.breakNow);
    case _ =>
  }

  lemma InvitesAreCareful(s: Run, w: Worker, m: Member, reply: InviteReply, breakNow: bool)
    requires w.phase == Inviting(m) && ValidReply(reply)
    ensures Careful(s, w, AfterInvite(s, w, m, reply, breakNow))
  {
  }

  // ---------------------------------------------------------------- who is invited

  /**
   * Whoever is in hand or got past the loop head was in range and not blocked when the run began; whoever
   * was barred is out of range or blocked.
   */
  ghost predicate Screened(s0: Run, s: Run) {
    && s0.blocked <= s.blocked
    && (forall i :: 0 <= i < |s.workers| && InHand(s.workers[i]).Some? ==>
          !IsBarred(InHand(s.workers[i]).value.uid, s0.blocked))
    && (forall f :: f in s.log && f.outcome.Barred? ==> IsBarred(f.member.uid, s.blocked))
    && (forall f :: f in s.log && !f.outcome.Barred? ==> !IsBarred(f.member.uid, s0.blocked))
  }

  lemma StepKeepsScreened(s0: Run, s: Run, i: nat, r: Reaction)
    requires Screened(s0, s) && i < |s.workers| && Careful(s, s.workers[i], r)
    ensures Screened(s0, Apply(s, r.effect).(workers := s.workers[i := r.worker]))
  {
    var t := Apply(s, r.effect).(workers := s.workers[i := r.worker]);
    if r.effect.BarHead? || r.effect.End? {
      var f := Finished(r.effect.member, if r.effect.BarHead? then Barred else r.effect.outcome);
      assert t.log == s.log + [f];
      assert forall g :: g in t.log ==> g in s.log || g == f;
    }
  }

  // ---------------------------------------------------------------- what the counters mean

  /** Failures since the last join: "not joined" and "privacy" among the entries after it. */
  function FailsSinceJoin(log: seq<Finished>): nat {
    if log == [] || log[|log| - 1].outcome.Joined? then 0
    else FailsSinceJoin(log[..|log| - 1])
         + (if log[|log| - 1].outcome.NotJoined? || log[|log| - 1].outcome.Privacy? then 1 else 0)
  }

  ghost predicate Meaningful(s: Run) {
    && s.globalFails == FailsSinceJoin(s.log)
    && Total(AddedBy, s.workers) == s.added
    && (forall i :: 0 <= i < |s.workers| ==> Rested(s.workers[i]))
  }

  lemma FinishKeepsFails(s: Run, m: Member, o: Outcome)
    requires s.globalFails == FailsSinceJoin(s.log)
    ensures Finish(s, m, o).globalFails == FailsSinceJoin(Finish(s, m, o).log)
  {
    assert (s.log + [Finished(m, o)])[..|s.log|] == s.log;
  }

  lemma StepKeepsMeaning(s: Run, i: nat, r: Reaction)
    requires Meaningful(s) && i < |s.workers| && Careful(s, s.workers[i], r) && !s.workers[i].phase.Left?
    ensures Meaningful(Apply(s, r.effect).(workers := s.workers[i := r.worker]))
  {
    TotalUpdate(AddedBy, s.workers, i, r.worker);
    match r.effect
    case BarHead(m) => FinishKeepsFails(s.(queue := s.queue[1..], dequeues := s.dequeues + 1), m, Barred);
    case End(m, o) => FinishKeepsFails(s, m, o);
    case _ =>
  }

  lemma StepKeepsPromises(s0: Run, s: Run, i: nat, c: Choice)
    requires Screened(s0, s) && Meaningful(s) && Enabled(s, Step(i, c))
    ensures Screened(s0, Next(s, Step(i, c))) && Meaningful(Next(s, Step(i, c)))
  {
    ReactionsAreCareful(s, s.workers[i], c);
    StepKeepsScreened(s0, s, i, React(s, s.workers[i], c));
    StepKeepsMeaning(s, i, React(s, s.workers[i], c));
  }

  lemma EventKeepsPromises(s0: Run, s: Run, e: Event)
    requires Screened(s0, s) && Meaningful(s) && Enabled(s, e)
    ensures Screened(s0, Next(s, e)) && Meaningful(Next(s, e))
  {
    if e.Step? {
      StepKeepsPromises(s0, s, e.w, e.choice);
    }
  }

  lemma {:induction false} PromisesKept(s0: Run, s: Run, es: seq<Event>, t: Run)
    requires Screened(s0, s) && Meaningful(s) && Leads(s, es, t)
    ensures Screened(s0, t) && Meaningful(t)
    decreases |es|
  {
    if es != [] {
      EventKeepsPromises(s0, s, es[0]);
      PromisesKept(s0, Next(s, es[0]), es[1..], t);
    }
  }

  lemma PromisesAtStart(s: Run)
    requires Init(s)
    ensures Screened(s, s) && Meaningful(s)
  {
    TotalBounds(AddedBy, s.workers, 0, 0);
  }

  /**
   * In every schedule a member is invited only if its id was in range and not blocked when the run began,
   * and is barred only if it is out of range or blocked.
   */
  lemma OnlyUnblockedAreInvited(s0: Run, es: seq<Event>, t: Run)
    requires Init(s0) && Leads(s0, es, t)
    ensures forall i :: 0 <= i < |t.workers| && t.workers[i].phase.Inviting? ==>
              !IsBarred(t.workers[i].phase.member.uid, s0.blocked)
    ensures forall f :: f in t.log && !f.outcome.Barred? ==> !IsBarred(f.member.uid, s0.blocked)
    ensures forall f :: f in t.log && f.outcome.Barred? ==> IsBarred(f.member.uid, t.blocked)
  {
    PromisesAtStart(s0);
    PromisesKept(s0, s0, es, t);
    forall i | 0 <= i < |t.workers| && t.workers[i].phase.Inviting?
      ensures !IsBarred(t.workers[i].phase.member.uid, s0.blocked)
    {
      assert InHand(t.workers[i]) == Some(t.workers[i].phase.member);
    }
  }

  /**
   * In every schedule the global failure counter is the failures since the last join, the accounts' own
   * counts of joins add up to the total, and no worker goes on after eight "not joined" without a long rest.
   */
  lemma CountersMeanWhatTheySay(s0: Run, es: seq<Event>, t: Run)
    requires Init(s0) && Leads(s0, es, t)
    ensures t.globalFails == FailsSinceJoin(t.log)
    ensures Total(AddedBy, t.workers) == t.added
    ensures forall i :: 0 <= i < |t.workers| ==> Rested(t.workers[i])
  {
    PromisesAtStart(s0);
    PromisesKept(s0, s0, es, t);
  }

  /**
   * Exactly when the run stops itself: the stop event goes up in a step precisely when a handler raises
   * it, or a worker is told "not joined" as the 25th or later failure of a run in which nobody has joined.
   */
  lemma GuardStopsExactly(s0: Run, es: seq<Event>, s: Run, e: Event)
    requires Init(s0) && Leads(s0, es, s) && Enabled(s, e) && !s.stopEvent
    ensures Next(s, e).stopEvent <==>
              e.RaiseStop? ||
              (&& e.Step? && s.workers[e.w].phase.Inviting? && e.choice.reply == Answered(NotJoined)
               && Total(JoinedOne, s.log) == 0 && FailsSinceJoin(s.log) >= 24)
  {
    CountersMeanWhatTheySay(s0, es, s);
    RunConserves(s0, es, s);
  }

  // ---------------------------------------------------------------- stopping

  /** The stop event is up, or the stop request is and nobody takes it back in es. */
  ghost predicate Halted(s: Run, es: seq<Event>) {
    s.stopEvent || (s.stopRequested && forall e :: e in es && e.SetFlags? ==> e.requested)
  }

  /** The stop button of the parallel add is down and nobody takes it back in es. */
  ghost predicate Paused(s: Run, es: seq<Event>) {
    s.stopParallel && forall e :: e in es && e.SetFlags? ==> e.parallel
  }

  lemma StillStopped(s: Run, es: seq<Event>)
    requires es != [] && Enabled(s, es[0])
    ensures Halted(s, es) ==> Halted(Next(s, es[0]), es[1..])
    ensures Paused(s, es) ==> Paused(Next(s, es[0]), es[1..])
  {
    assert es[0] in es && forall e :: e in es[1..] ==> e in es;
  }

  lemma HaltedStep(s: Run, i: nat, c: Choice)
    requires (s.stopEvent || s.stopRequested) && Enabled(s, Step(i, c))
    ensures var t := Next(s, Step(i, c));
            && t.dequeues == s.dequeues
            && Total(AnsweredOne, t.log) + Total(InvitingOne, t.workers)
            <= Total(AnsweredOne, s.log) + Total(InvitingOne, s.workers)
  {
    var r := React(s, s.workers[i], c);
    ReactionsAreCareful(s, s.workers[i], c);
    TotalUpdate(InvitingOne, s.workers, i, r.worker);
    if r.effect.End? {
      TotalAppend(AnsweredOne, s.log, Finished(r.effect.member, r.effect.outcome));
    }
  }

  lemma PausedStep(s: Run, i: nat, c: Choice)
    requires s.stopParallel && Enabled(s, Step(i, c))
    ensures var t := Next(s, Step(i, c));
            && t.dequeues == s.dequeues
            && Total(AnsweredOne, t.log) + Total(HandSize, t.workers)
            <= Total(AnsweredOne, s.log) + Total(HandSize, s.workers)
  {
    var r := React(s, s.workers[i], c);
    ReactionsAreCareful(s, s.workers[i], c);
    TotalUpdate(HandSize, s.workers, i, r.worker);
    if r.effect.End? {
      TotalAppend(AnsweredOne, s.log, Finished(r.effect.member, r.effect.outcome));
    }
  }

  lemma {:induction false} HaltedSteps(s: Run, es: seq<Event>, t: Run)
    requires Halted(s, es) && Leads(s, es, t)
    ensures t.dequeues == s.dequeues
    ensures Total(AnsweredOne, t.log) + Total(InvitingOne, t.workers)
         <= Total(AnsweredOne, s.log) + Total(InvitingOne, s.workers)
    decreases |es|
  {
    if es != [] {
      StillStopped(s, es);
      if es[0].Step? {
        HaltedStep(s, es[0].w, es[0].choice);
      }
      HaltedSteps(Next(s, es[0]), es[1..], t);
    }
  }

  lemma {:induction false} PausedSteps(s: Run, es: seq<Event>, t: Run)
    requires Paused(s, es) && Leads(s, es, t)
    ensures t.dequeues == s.dequeues
    ensures Total(AnsweredOne, t.log) + Total(HandSize, t.workers)
         <= Total(AnsweredOne, s.log) + Total(HandSize, s.workers)
    decreases |es|
  {
    if es != [] {
      StillStopped(s, es);
      if es[0].Step? {
        PausedStep(s, es[0].w, es[0].choice);
      }
      PausedSteps(Next(s, es[0]), es[1..], t);
    }
  }

  /**
   * Once the stop event is up, and as long as the stop request is, nothing more is taken, and no answer
   * comes but to invitations already out.
   */
  lemma StopHalts(s: Run, es: seq<Event>, t: Run)
    requires Halted(s, es) && Leads(s, es, t)
    ensures t.dequeues == s.dequeues
    ensures Total(AnsweredOne, t.log) <= Total(AnsweredOne, s.log) + Total(InvitingOne, s.workers)
  {
    HaltedSteps(s, es, t);
    TotalBounds(InvitingOne, t.workers, 0, 1);
  }

  /**
   * The stop button of the parallel add is not looked at again after the throttle: as long as it is down
   * nothing more is taken, but whoever is in a worker's hands may still be invited.
   */
  lemma PauseHalts(s: Run, es: seq<Event>, t: Run)
    requires Paused(s, es) && Leads(s, es, t)
    ensures t.dequeues == s.dequeues
    ensures Total(AnsweredOne, t.log) <= Total(AnsweredOne, s.log) + Total(HandSize, s.workers)
  {
    PausedSteps(s, es, t);
    TotalBounds(HandSize, t.workers, 0, 1);
  }

  /** And that bound is reached: with only that flag up, a worker past resolving goes on to its answer. */
  lemma PauseLetsThrough(s: Run, i: nat, m: Member, o: Outcome)
    requires i < |s.workers| && s.workers[i].phase == Throttled(m) && !o.Barred? && !o.Unresolved?
    requires s.stopParallel && !s.stopEvent && !s.stopRequested
    ensures var go, answer := Step(i, Go), Step(i, Invite(Answered(o), false));
            Enabled(s, go) && Enabled(Next(s, go), answer)
            && Total(AnsweredOne, Next(Next(s, go), answer).log) == Total(AnsweredOne, s.log) + 1
  {
    var u := Next(s, Step(i, Go));
    assert u.workers[i].phase == Inviting(m);
    assert AfterAnswer(u, u.workers[i], m, o, false).effect == End(m, o);
    TotalAppend(AnsweredOne, s.log, Finished(m, o));
  }

  // ---------------------------------------------------------------- a worker's own answers

  /** What worker i lives through that bears on its rests: an answer to its invitation, or a long rest. */
  datatype Mark = Told(outcome: Outcome) | LongRest

  /** The marks that one event leaves for worker i. */
  function MarksOf(s: Run, e: Event, i: nat): seq<Mark>
    requires Enabled(s, e) && i < |s.workers|
  {
    if e.Step? && e.w == i && s.workers[i].phase.Inviting? && e.choice.reply.Answered? then
      [Told(e.choice.reply.outcome)] + (if Next(s, e).workers[i].phase == Pausing(true) then [LongRest] else [])
    else []
  }

  function Marks(s: Run, es: seq<Event>, t: Run, i: nat): seq<Mark>
    requires Leads(s, es, t) && i < |s.workers|
    decreases |es|
  {
    if es == [] then []
    else MarksOf(s, es[0], i) + Marks(Next(s, es[0]), es[1..], t, i)
  }

  /** The "not joined" answers since the last join or long rest. */
  function SkipsSince(marks: seq<Mark>): nat {
    if marks == [] then 0
    else
      var last, front := marks[|marks| - 1], marks[..|marks| - 1];
      if last.LongRest? || last.outcome.Joined? then 0
      else SkipsSince(front) + (if last.outcome.NotJoined? then 1 else 0)
  }

  lemma SkipsAppend(marks: seq<Mark>, m: Mark)
    ensures SkipsSince(marks + [m])
         == if m.LongRest? || m.outcome.Joined? then 0 else SkipsSince(marks) + (if m.outcome.NotJoined? then 1 else 0)
  {
    assert (marks + [m])[..|marks|] == marks;
  }

  /** An event leaves worker i's counter at what its marks say. */
  lemma SkipsStep(s: Run, e: Event, i: nat, before: seq<Mark>)
    requires Enabled(s, e) && i < |s.workers| && s.workers[i].skipsInRow == SkipsSince(before)
    ensures Next(s, e).workers[i].skipsInRow == SkipsSince(before + MarksOf(s, e, i))
  {
    var marks := MarksOf(s, e, i);
    if marks == [] {
      assert before + marks == before;
      UnmarkedKeepsSkips(s, e, i);
    } else {
      SkipsAppend(before, marks[0]);
      AnsweredSkips(s, i, e.choice);
      if |marks| == 1 {
        assert marks == [marks[0]];
      } else {
        SkipsAppend(before + [marks[0]], LongRest);
        assert before + marks == before + [marks[0]] + [LongRest];
      }
    }
  }

  lemma UnmarkedKeepsSkips(s: Run, e: Event, i: nat)
    requires Enabled(s, e) && i < |s.workers| && MarksOf(s, e, i) == []
    ensures Next(s, e).workers[i].skipsInRow == s.workers[i].skipsInRow
  {
  }

  /** What an answer does to the counter: "not joined" adds one, a join or a long rest clears it. */
  lemma AnsweredSkips(s: Run, i: nat, c: Choice)
    requires Enabled(s, Step(i, c)) && s.workers[i].phase.Inviting? && c.reply.Answered?
    ensures var w, w', o := s.workers[i], Next(s, Step(i, c)).workers[i], c.reply.outcome;
            w'.skipsInRow == if w'.phase == Pausing(true) || o.Joined? then 0
                             else w.skipsInRow + (if o.NotJoined? then 1 else 0)
  {
  }

  lemma WorkersStay(s: Run, e: Event)
    requires Enabled(s, e)
    ensures |Next(s, e).workers| == |s.workers|
  {
  }

  lemma {:induction false} SkipsRun(s: Run, es: seq<Event>, t: Run, i: nat, before: seq<Mark>)
    requires Leads(s, es, t) && i < |s.workers| && s.workers[i].skipsInRow == SkipsSince(before)
    ensures i < |t.workers| && t.workers[i].skipsInRow == SkipsSince(before + Marks(s, es, t, i))
    decreases |es|
  {
    if es == [] {
      assert before + [] == before;
    } else {
      var u, first := Next(s, es[0]), MarksOf(s, es[0], i);
      SkipsStep(s, es[0], i, before);
      WorkersStay(s, es[0]);
      SkipsRun(u, es[1..], t, i, before + first);
      Regroup(before, first, Marks(u, es[1..], t, i));
    }
  }

  /**
   * In every schedule a worker's counter is its own "not joined" answers since its last join or long rest,
   * and it never carries eight of them on.
   */
  lemma SkipsAreOwnAnswers(s0: Run, es: seq<Event>, t: Run, i: nat)
    requires Init(s0) && Leads(s0, es, t) && i < |s0.workers|
    ensures i < |t.workers| && t.workers[i].skipsInRow == SkipsSince(Marks(s0, es, t, i))
    ensures t.workers[i].phase.Left? || SkipsSince(Marks(s0, es, t, i)) < 8
  {
    SkipsRun(s0, es, t, i, []);
    assert [] + Marks(s0, es, t, i) == Marks(s0, es, t, i);
    CountersMeanWhatTheySay(s0, es, t);
    assert Rested(t.workers[i]);
  }

  /** The long rest comes exactly with the eighth of them, unless that answer makes the guard stop the run. */
  lemma RestsAtTheEighth(s0: Run, es: seq<Event>, s: Run, i: nat, breakNow: bool)
    requires Init(s0) && Leads(s0, es, s) && i < |s0.workers|
    requires i < |s.workers| && s.workers[i].phase.Inviting?
    ensures Next(s, Step(i, Invite(Answered(NotJoined), breakNow))).workers[i].phase == Pausing(true)
       <==> SkipsSince(Marks(s0, es, s, i)) == 7 && !GuardTrips(s)
  {
    SkipsAreOwnAnswers(s0, es, s, i);
  }

  // ---------------------------------------------------------------- the shared set, exactly

  function BlockedBy(log: seq<Finished>): set<int> {
    set f | f in log && f.outcome.Blocks() :: f.member.uid
  }

  function Learned(es: seq<Event>): set<int> {
    set e | e in es && e.Learn? :: e.uid
  }

  lemma BlockedByAppend(log: seq<Finished>, f: Finished)
    ensures BlockedBy(log + [f]) == BlockedBy(log) + (if f.outcome.Blocks() then {f.member.uid} else {})
  {
    assert forall g :: g in log + [f] <==> g in log || g == f;
    assert f in log + [f];
  }

  lemma LearnedSplit(es: seq<Event>)
    requires es != []
    ensures Learned(es) == (if es[0].Learn? then {es[0].uid} else {}) + Learned(es[1..])
  {
    assert es == [es[0]] + es[1..];
    assert forall e :: e in es <==> e == es[0] || e in es[1..];
  }

  lemma ApplyBlocks(s: Run, e: Effect)
    requires e.Take? || e.BarHead? ==> s.queue != []
    ensures Apply(s, e).blocked + BlockedBy(s.log) == s.blocked + BlockedBy(Apply(s, e).log)
  {
    match e
    case BarHead(m) => BlockedByAppend(s.log, Finished(m, Barred));
    case End(m, o) => BlockedByAppend(s.log, Finished(m, o));
    case _ =>
  }

  lemma BlockedStep(s: Run, e: Event)
    requires Enabled(s, e)
    ensures Next(s, e).blocked + BlockedBy(s.log)
         == s.blocked + BlockedBy(Next(s, e).log) + (if e.Learn? then {e.uid} else {})
    ensures BlockedBy(s.log) <= BlockedBy(Next(s, e).log) && s.blocked <= Next(s, e).blocked
  {
    if e.Step? {
      ReactionsAreCareful(s, s.workers[e.w], e.choice);
      ApplyBlocks(s, React(s, s.workers[e.w], e.choice).effect);
    }
  }

  lemma {:induction false} BlockedSteps(s: Run, es: seq<Event>, t: Run)
    requires Leads(s, es, t)
    ensures t.blocked + BlockedBy(s.log) == s.blocked + BlockedBy(t.log) + Learned(es)
    ensures BlockedBy(s.log) <= BlockedBy(t.log) && s.blocked <= t.blocked
    decreases |es|
  {
    if es == [] {
      assert Learned(es) == {};
    } else {
      var u := Next(s, es[0]);
      LearnedSplit(es);
      BlockedStep(s, es[0]);
      BlockedSteps(u, es[1..], t);
    }
  }

  /**
   * The set the workers hold is exactly what it was at the start, the ids of blocking outcomes, and what
   * other tasks added to it.
   */
  lemma BlockedSetIsExact(s0: Run, es: seq<Event>, t: Run)
    requires Init(s0) && Leads(s0, es, t)
    ensures t.blocked == s0.blocked + BlockedBy(t.log) + Learned(es)
  {
    BlockedSteps(s0, es, t);
    assert BlockedBy(s0.log) == {};
  }
}
