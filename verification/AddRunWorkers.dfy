/**
 * The parallel add run as state that the workers update in place: shared counters, the shared queue,
 * the blocked set (which may be the very object the cache holds), the tables, and each worker's own
 * variables.  Each method is the code between two awaits, and does exactly one step of AddRun.Next.
 */
module AddRunWorkers {
  import opened Common
  import opened AddRun
  import opened Database
  import opened BlockedCache

  /** What finishing a member with outcome o does to the tables. */
  function Booked(t: Tables, group: int, m: Member, o: Outcome, phone: string): Tables {
    match o
    case Joined => Do(t, OpMarkAdded(group, m.uid, phone))
    case AlreadyIn => Do(t, OpMarkAdded(group, m.uid, phone))
    case NotJoined => Do(t, OpNeverAddAgain(m.uid, "privacy"))
    case Privacy => Do(t, OpNeverAddAgain(m.uid, "privacy"))
    case InvalidPeer => Do(t, OpNeverAddAgain(m.uid, "invalid"))
    case TooManyChannels => Do(t, OpNeverAddAgain(m.uid, "too_many_channels"))
    case _ => t
  }

  /** The run after member m ended with o, but for the blocked set, which is booked separately. */
  ghost function Counted(s: Run, i: nat, m: Member, o: Outcome, breakNow: bool): Run
    requires i < |s.workers|
  {
    Finish(s, m, o).(workers := s.workers[i := AfterAnswer(s, s.workers[i], m, o, breakNow).worker],
                     blocked := s.blocked)
  }

  lemma EndsWithAnswer(s: Run, i: nat, m: Member, o: Outcome, breakNow: bool)
    requires i < |s.workers| && s.workers[i].phase == Inviting(m) && !o.Barred? && !o.Unresolved?
    ensures Next(s, Step(i, Invite(Answered(o), breakNow)))
         == Counted(s, i, m, o, breakNow).(blocked := if o.Blocks() then s.blocked + {m.uid} else s.blocked)
  {
    assert AfterAnswer(s, s.workers[i], m, o, breakNow).effect == End(m, o);
  }

  lemma LoopHeadStep(s: Run, i: nat)
    requires i < |s.workers| && s.workers[i].phase.AtLoop?
    ensures var r := AtLoopHead(s, s.workers[i]);
            && (r.effect.Take? || r.effect.BarHead? ==> s.queue != [])
            && Next(s, Step(i, Go)) == Apply(s, r.effect).(workers := s.workers[i := r.worker])
  {
  }

  // ---------------------------------------------------------------- everything that can happen during a run

  /**
   * What happens while a run is on: a worker's step, a stop button, and what other handlers do to the
   * tables and the cache meanwhile: book a join, refuse somebody, ask for the blocked ids, open a run.
   */
  datatype Deed =
    | Work(i: nat, choice: Choice)
    | Stop
    | Flags(requested: bool, parallel: bool)
    | JoinElsewhere(group: int, uid: int, phone: string)
    | RefuseElsewhere(uid: int, reason: string)
    | AskElsewhere(now: real)
    | OpenElsewhere(now: real)

  /** The run, the tables, whether the held set is the cached object, and if so since when it is cached. */
  datatype World = World(run: Run, tables: Tables, shared: bool, since: real)

  /** Outcomes whose booking drops the cached set. */
  predicate DropsCache(o: Outcome) { o.NotJoined? || o.Privacy? || o.InvalidPeer? || o.TooManyChannels? }

  /** What a deed is to the run: an event, unless it is impossible or does not reach the held set. */
  function EventOf(w: World, d: Deed): Option<Event> {
    match d
    case Work(i, c) => if Enabled(w.run, Step(i, c)) then Some(Step(i, c)) else None
    case Stop => Some(RaiseStop)
    case Flags(requested, parallel) => Some(SetFlags(requested, parallel))
    case JoinElsewhere(_, uid, _) => if w.shared then Some(Learn(uid)) else None
    case _ => None
  }

  /** The member that a deed finishes by an answer to its invitation. */
  function Ended(s: Run, d: Deed): Option<Finished> {
    if && d.Work? && Enabled(s, Step(d.i, d.choice))
       && s.workers[d.i].phase.Inviting? && d.choice.reply.Answered?
    then Some(Finished(s.workers[d.i].phase.member, d.choice.reply.outcome))
    else None
  }

  function TablesAfter(w: World, d: Deed, group: int, phones: seq<string>): Tables
    requires |phones| == |w.run.workers|
  {
    match d
    case Work(i, _) =>
      if Ended(w.run, d).Some? then
        Booked(w.tables, group, Ended(w.run, d).value.member, Ended(w.run, d).value.outcome, phones[i])
      else w.tables
    case JoinElsewhere(other, uid, phone) => Do(w.tables, OpMarkAdded(other, uid, phone))
    case RefuseElsewhere(uid, reason) => Do(w.tables, OpNeverAddAgain(uid, reason))
    case _ => w.tables
  }

  predicate SharedAfter(w: World, d: Deed) {
    && w.shared
    && match d
       case Work(_, _) => !(Ended(w.run, d).Some? && DropsCache(Ended(w.run, d).value.outcome))
       case AskElsewhere(now) => now - w.since <= BLOCKED_CACHE_TTL
       case RefuseElsewhere(_, _) => false
       case OpenElsewhere(_) => false
       case _ => true
  }

  function Act(w: World, d: Deed, group: int, phones: seq<string>): (w': World)
    requires |phones| == |w.run.workers|
    ensures |w'.run.workers| == |w.run.workers|
  {
    World(if EventOf(w, d).Some? then Next(w.run, EventOf(w, d).value) else w.run,
          TablesAfter(w, d, group, phones),
          SharedAfter(w, d),
          if SharedAfter(w, d) then w.since else 0.0)
  }

  /** A worker's step leaves the tables and the cache alone, unless it is the answer to an invitation. */
  lemma ActOfWork(w: World, i: nat, c: Choice, group: int, phones: seq<string>)
    requires |phones| == |w.run.workers| && Enabled(w.run, Step(i, c))
    requires w.shared || w.since == 0.0
    ensures var w', f := Act(w, Work(i, c), group, phones), Ended(w.run, Work(i, c));
            && w'.run == Next(w.run, Step(i, c))
            && (f.None? ==> w' == w.(run := w'.run))
            && (f.Some? ==>
                  && w'.tables == Booked(w.tables, group, f.value.member, f.value.outcome, phones[i])
                  && w'.shared == (w.shared && !DropsCache(f.value.outcome))
                  && w'.since == if w'.shared then w.since else 0.0)
    ensures Ended(w.run, Work(i, c)).Some? ==> w.run.workers[i].phase.Inviting?
  {
  }

  function ActAll(w: World, ds: seq<Deed>, group: int, phones: seq<string>): World
    requires |phones| == |w.run.workers|
    decreases |ds|
  {
    if ds == [] then w else ActAll(Act(w, ds[0], group, phones), ds[1..], group, phones)
  }

  /** The events of the run among these deeds. */
  function Events(w: World, ds: seq<Deed>, group: int, phones: seq<string>): seq<Event>
    requires |phones| == |w.run.workers|
    decreases |ds|
  {
    if ds == [] then []
    else
      var e := EventOf(w, ds[0]);
      (if e.Some? then [e.value] else []) + Events(Act(w, ds[0], group, phones), ds[1..], group, phones)
  }

  /** Whatever happens, the run goes by steps of the step system: so everything proved of those holds of it. */
  lemma {:induction false} DeedsAreARun(w: World, ds: seq<Deed>, group: int, phones: seq<string>)
    requires |phones| == |w.run.workers|
    ensures Leads(w.run, Events(w, ds, group, phones), ActAll(w, ds, group, phones).run)
    decreases |ds|
  {
    if ds != [] {
      var w' := Act(w, ds[0], group, phones);
      DeedsAreARun(w', ds[1..], group, phones);
      var e := EventOf(w, ds[0]);
      if e.Some? {
        assert ([e.value] + Events(w', ds[1..], group, phones))[1..] == Events(w', ds[1..], group, phones);
      } else {
        assert [] + Events(w', ds[1..], group, phones) == Events(w', ds[1..], group, phones);
      }
    }
  }

  function DeedOf(e: Event): Deed
    requires !e.Learn?
  {
    match e
    case Step(i, c) => Work(i, c)
    case RaiseStop => Stop
    case SetFlags(requested, parallel) => Flags(requested, parallel)
  }

  function DeedsOf(es: seq<Event>): seq<Deed>
    requires forall e :: e in es ==> !e.Learn?
  {
    if es == [] then [] else [DeedOf(es[0])] + DeedsOf(es[1..])
  }

  /** And every schedule of the step system happens, event for event, when its deeds are done. */
  lemma {:induction false} SchedulesHappen(w: World, es: seq<Event>, t: Run, group: int, phones: seq<string>)
    requires |phones| == |w.run.workers|
    requires Leads(w.run, es, t) && forall e :: e in es ==> !e.Learn?
    ensures Events(w, DeedsOf(es), group, phones) == es
    ensures ActAll(w, DeedsOf(es), group, phones).run == t
    decreases |es|
  {
    if es != [] {
      var d := DeedOf(es[0]);
      assert EventOf(w, d) == Some(es[0]);
      assert DeedsOf(es)[1..] == DeedsOf(es[1..]);
      SchedulesHappen(Act(w, d, group, phones), es[1..], t, group, phones);
    }
  }

  /** The held set names only blocked ids, and all of them as long as it is the cached object. */
  ghost predicate Mirrors(w: World) {
    w.run.blocked <= w.tables.Blocked() && (w.shared ==> w.run.blocked == w.tables.Blocked())
  }

  lemma ListedIds(t: Tables, uid: int, reason: string)
    ensures Do(t, OpNeverAddAgain(uid, reason)).Blocked() == t.Blocked() + {uid}
  {
    assert NeverAddAgain(t, uid, reason).AddedIds() == t.AddedIds();
  }

  lemma BookedIds(t: Tables, group: int, m: Member, o: Outcome, phone: string)
    ensures Booked(t, group, m, o, phone).Blocked()
         == if o.Blocks() || o.TooManyChannels? then t.Blocked() + {m.uid} else t.Blocked()
  {
    match o
    case Joined => MarkAddedIds(t, group, m.uid, phone);
    case AlreadyIn => MarkAddedIds(t, group, m.uid, phone);
    case NotJoined => ListedIds(t, m.uid, "privacy");
    case Privacy => ListedIds(t, m.uid, "privacy");
    case InvalidPeer => ListedIds(t, m.uid, "invalid");
    case TooManyChannels => ListedIds(t, m.uid, "too_many_channels");
    case _ =>
  }

  /**
   * What each outcome books: a join or "already in" goes to the history under the run's own group; a refusal
   * is listed as private, invalid or in too many channels, and the user's row goes; nothing else is booked.
   */
  lemma OutcomesBook(t: Tables, group: int, m: Member, o: Outcome, phone: string)
    ensures var t' := Booked(t, group, m, o, phone);
            match o
            case Joined => (group, m.uid) in t'.history && t'.doNotAdd == t.doNotAdd
            case AlreadyIn => (group, m.uid) in t'.history && t'.doNotAdd == t.doNotAdd
            case NotJoined => t'.history == t.history && t'.doNotAdd == t.doNotAdd[m.uid := "privacy"]
            case Privacy => t'.history == t.history && t'.doNotAdd == t.doNotAdd[m.uid := "privacy"]
            case InvalidPeer => t'.history == t.history && t'.doNotAdd == t.doNotAdd[m.uid := "invalid"]
            case TooManyChannels =>
              t'.history == t.history && t'.doNotAdd == t.doNotAdd[m.uid := "too_many_channels"]
            case _ => t' == t
    ensures o.Joined? || o.AlreadyIn? ==>
              && (forall k :: k != (group, m.uid) ==>
                    (k in Booked(t, group, m, o, phone).history <==> k in t.history))
              && ((group, m.uid) !in t.history ==> Booked(t, group, m, o, phone).history[(group, m.uid)] == phone)
    ensures o.NotJoined? || o.Privacy? || o.InvalidPeer? || o.TooManyChannels? ==>
              m.uid !in Booked(t, group, m, o, phone).scraped
  {
    MarkStores(t, group, m.uid, phone);
  }

  lemma WorkBlocks(s: Run, i: nat, c: Choice)
    requires Enabled(s, Step(i, c))
    ensures Next(s, Step(i, c)).blocked
         == match Ended(s, Work(i, c))
            case Some(f) => if f.outcome.Blocks() then s.blocked + {f.member.uid} else s.blocked
            case None => s.blocked
  {
    var f := Ended(s, Work(i, c));
    if f.Some? {
      EndsWithAnswer(s, i, f.value.member, f.value.outcome, c.breakNow);
    }
  }

  lemma DeedKeepsMirror(w: World, d: Deed, group: int, phones: seq<string>)
    requires |phones| == |w.run.workers| && Mirrors(w)
    ensures Mirrors(Act(w, d, group, phones))
  {
    match d
    case Work(i, c) =>
      if Enabled(w.run, Step(i, c)) {
        WorkBlocks(w.run, i, c);
        if Ended(w.run, d).Some? {
          BookedIds(w.tables, group, Ended(w.run, d).value.member, Ended(w.run, d).value.outcome, phones[i]);
        }
      }
    case JoinElsewhere(other, uid, phone) => MarkAddedIds(w.tables, other, uid, phone);
    case RefuseElsewhere(uid, reason) => ListedIds(w.tables, uid, reason);
    case _ =>
  }

  /**
   * Whatever the workers and other handlers do, the held set never names anybody who is not blocked, and
   * misses nobody until a refusal, a refresh or another run parts it from the cache.
   */
  lemma {:induction false} HeldSetMirrorsTables(w: World, ds: seq<Deed>, group: int, phones: seq<string>)
    requires |phones| == |w.run.workers| && Mirrors(w)
    ensures Mirrors(ActAll(w, ds, group, phones))
    decreases |ds|
  {
    if ds != [] {
      DeedKeepsMirror(w, ds[0], group, phones);
      HeldSetMirrorsTables(Act(w, ds[0], group, phones), ds[1..], group, phones);
    }
  }

  // ---------------------------------------------------------------- the run on shared fields

  class ParallelRun {
    const cache: Cache
    const group: int
    const phones: seq<string>
    var queue: seq<Member>
    var workers: seq<Worker>
    var totalAdded: nat
    var totalFailed: nat
    var totalSkipped: nat
    var globalConsecutiveFails: nat
    var stopEvent: bool
    var stopRequested: bool
    var stopParallel: bool
    var blockedIds: IdSet
    ghost var log: seq<Finished>
    ghost var dequeues: nat

    ghost function Value(): Run
      reads this, blockedIds
    {
      Run(queue, workers, totalAdded, totalFailed, totalSkipped, globalConsecutiveFails,
          stopEvent, stopRequested, stopParallel, blockedIds.elems, log, dequeues)
    }

    /** The run together with the tables and the cache. */
    ghost function View(): World
      reads this, blockedIds, cache, cache.db
    {
      World(Value(), cache.db.Value(), blockedIds == cache.ids, if blockedIds == cache.ids then cache.ts else 0.0)
    }

    /** The cache is truthful, and the set the workers hold names nobody who is not really blocked. */
    ghost predicate Truthful()
      reads this`blockedIds, blockedIds, cache, cache.db, cache.ids
    {
      cache.Truthful() && blockedIds.elems <= cache.db.Value().Blocked()
    }

    ghost predicate Valid()
      reads this, blockedIds, cache, cache.db, cache.ids
    {
      |phones| == |workers| && Truthful()
    }

    /** The start of a run: flags cleared, the cache dropped and read again, one launching worker per account. */
    constructor (cache: Cache, now: real, group: int, phones: seq<string>, strikes: seq<nat>, members: seq<Member>)
      requires |strikes| == |phones|
      requires forall i, j :: 0 <= i < j < |members| ==> members[i].uid != members[j].uid
      modifies cache
      ensures Valid() && this.cache == cache && this.group == group
      ensures Init(Value()) && queue == members && |workers| == |phones|
      ensures blockedIds.elems == cache.db.Value().Blocked()
      ensures Mirrors(View()) && View().shared == (cache.db.Value().Blocked() != {})
    {
      cache.Invalidate();
      var blocked := cache.GetBlockedIds(now);
      this.cache, this.group, this.phones := cache, group, phones;
      queue := members;
      workers := seq(|phones|, i requires 0 <= i < |phones| => Worker(Launching, strikes[i], 0, 0));
      totalAdded, totalFailed, totalSkipped, globalConsecutiveFails := 0, 0, 0, 0;
      stopEvent, stopRequested, stopParallel := false, false, false;
      blockedIds := blocked;
      log, dequeues := [], 0;
    }

    method SetPhase(i: nat, p: Phase)
      requires i < |workers|
      modifies this`workers
      ensures workers == old(workers)[i := old(workers)[i].(phase := p)]
    {
      workers := workers[i := workers[i].(phase := p)];
    }

    /** Starting up, and the ends of the waits. */
    method EndWait(i: nat, c: Choice)
      requires i < |workers| && Possible(Value(), workers[i], c)
      requires workers[i].phase.Launching? || workers[i].phase.Connecting? || workers[i].phase.Cooling?
            || workers[i].phase.Pausing? || workers[i].phase.Breaking?
      modifies this`workers
      ensures Value() == Next(old(Value()), Step(i, c))
    {
      if c.StopSeen? {
        SetPhase(i, Left(Stopped));
      } else {
        match workers[i].phase {
          case Launching => SetPhase(i, if c.Go? then Connecting else Left(NeverStarted));
          case Connecting => SetPhase(i, if c.Go? then AtLoop else Left(NeverStarted));
          case Cooling => SetPhase(i, if workers[i].strikes >= MAX_STRIKES then Left(StruckOut) else AtLoop);
          case Breaking => SetPhase(i, Pausing(false));
          case Pausing(_) => SetPhase(i, AtLoop);
        }
      }
    }

    /** One turn of the loop head. */
    method TurnLoop(i: nat)
      requires i < |workers| && workers[i].phase.AtLoop?
      modifies this`queue, this`workers, this`totalSkipped, this`log, this`dequeues
      ensures Value() == Next(old(Value()), Step(i, Go))
    {
      LoopHeadStep(Value(), i);
      if queue == [] {
        workers := workers[i := workers[i].(phase := Left(QueueEmpty))];
        return;
      }
      if workers[i].added >= ACCOUNT_CAP {
        workers := workers[i := workers[i].(phase := Left(AtCap))];
        return;
      }
      if stopEvent || stopRequested || stopParallel {
        workers := workers[i := workers[i].(phase := Left(Stopped))];
        return;
      }
      var member := queue[0];
      queue := queue[1..];
      dequeues := dequeues + 1;
      if member.uid <= 10000 || member.uid >= 100000000000 || member.uid in blockedIds.elems {
        totalSkipped := totalSkipped + 1;
        log := log + [Finished(member, Barred)];
        return;
      }
      workers := workers[i := workers[i].(phase := Resolving(member, false))];
    }

    /** The answer to resolving the member's peer. */
    method ResolveAnswered(i: nat, c: Choice)
      requires i < |workers| && workers[i].phase.Resolving? && Possible(Value(), workers[i], c)
      modifies this`queue, this`workers, this`totalSkipped, this`log
      ensures Value() == Next(old(Value()), Step(i, c))
    {
      var member := workers[i].phase.member;
      if c.Flooded? {
        queue := queue + [member];
        workers := workers[i := workers[i].(strikes := workers[i].strikes + 1, phase := Cooling)];
      } else if c.Go? {
        SetPhase(i, Throttled(member));
      } else if !workers[i].phase.byId && member.named {
        SetPhase(i, Resolving(member, true));
      } else {
        totalSkipped := totalSkipped + 1;
        log := log + [Finished(member, Unresolved)];
        SetPhase(i, AtLoop);
      }
    }

    /** The throttle has let the worker through. */
    method ThrottleDone(i: nat)
      requires i < |workers| && workers[i].phase.Throttled?
      modifies this`queue, this`workers
      ensures Value() == Next(old(Value()), Step(i, Go))
    {
      var member := workers[i].phase.member;
      if stopEvent || stopRequested {
        queue := queue + [member];
        SetPhase(i, Left(Stopped));
      } else {
        SetPhase(i, Inviting(member));
      }
    }

    /** The tables, the cache and the held set after an answer; the counters are not touched. */
    method Book(m: Member, o: Outcome, phone: string)
      requires Valid()
      modifies blockedIds, cache, cache.db, cache.ids
      ensures Valid()
      ensures cache.ids == if DropsCache(o) then null else old(cache.ids)
      ensures !DropsCache(o) ==> cache.ts == old(cache.ts)
      ensures blockedIds.elems == if o.Blocks() then old(blockedIds.elems) + {m.uid} else old(blockedIds.elems)
      ensures cache.db.Value() == Booked(old(cache.db.Value()), group, m, o, phone)
    {
      match o {
        case Joined => cache.BookAdded(blockedIds, group, m.uid, phone);
        case AlreadyIn => cache.BookAdded(blockedIds, group, m.uid, phone);
        case NotJoined => cache.BookRefused(blockedIds, m.uid, "privacy");
        case Privacy => cache.BookRefused(blockedIds, m.uid, "privacy");
        case InvalidPeer => cache.BookRefused(blockedIds, m.uid, "invalid");
        case TooManyChannels => cache.NeverAddAgain(m.uid, "too_many_channels");
        case _ =>
      }
    }

    /** The answer to the invitation. */
    method InviteAnswered(i: nat, r: InviteReply, breakNow: bool)
      requires Valid() && i < |workers| && workers[i].phase.Inviting? && ValidReply(r)
      modifies this, blockedIds, cache, cache.db, cache.ids
      ensures Valid() && blockedIds == old(blockedIds)
      ensures Value() == Next(old(Value()), Step(i, Invite(r, breakNow)))
      ensures cache.ids == if r.Answered? && DropsCache(r.outcome) then null else old(cache.ids)
      ensures cache.ids != null ==> cache.ts == old(cache.ts)
      ensures cache.db.Value() == match r
                case Answered(o) => Booked(old(cache.db.Value()), group, old(workers[i].phase.member), o, phones[i])
                case _ => old(cache.db.Value())
    {
      var member := workers[i].phase.member;
      match r {
        case PeerFlood =>
          queue := queue + [member];
          workers := workers[i := workers[i].(strikes := workers[i].strikes + 1, phase := Cooling)];
        case WriteForbidden =>
          queue := queue + [member];
          SetPhase(i, Left(Forbidden));
        case Answered(o) =>
          EndsWithAnswer(Value(), i, member, o, breakNow);
          EndMember(i, member, o, breakNow);
      }
    }

    /** Book and count an answer that ends the member. */
    method EndMember(i: nat, m: Member, o: Outcome, breakNow: bool)
      requires Valid() && i < |workers|
      modifies this, blockedIds, cache, cache.db, cache.ids
      ensures Valid() && blockedIds == old(blockedIds)
      ensures cache.ids == if DropsCache(o) then null else old(cache.ids)
      ensures !DropsCache(o) ==> cache.ts == old(cache.ts)
      ensures Value() == Counted(old(Value()), i, m, o, breakNow).(blocked := Value().blocked)
      ensures Value().blocked == if o.Blocks() then old(Value()).blocked + {m.uid} else old(Value()).blocked
      ensures cache.db.Value() == Booked(old(cache.db.Value()), group, m, o, phones[i])
    {
      CountAnswer(i, m, o, breakNow);
      Book(m, o, phones[i]);
    }

    /** The counters, the guard and the worker's own variables after an answer that ends the member. */
    method CountAnswer(i: nat, m: Member, o: Outcome, breakNow: bool)
      requires i < |workers|
      modifies this`workers, this`totalAdded, this`totalFailed, this`totalSkipped,
               this`globalConsecutiveFails, this`stopEvent, this`log
      ensures Value() == Counted(old(Value()), i, m, o, breakNow)
    {
      if o.NotJoined? {
        CountNotJoined(i, m);
      } else if o.Joined? {
        CountJoined(i, m, breakNow);
      } else {
        CountOther(i, m, o, breakNow);
      }
    }

    /** The only place where the abort guard is tested. */
    method CountNotJoined(i: nat, m: Member)
      requires i < |workers|
      modifies this`workers, this`totalSkipped, this`globalConsecutiveFails, this`stopEvent, this`log
      ensures Value() == Counted(old(Value()), i, m, NotJoined, false)
    {
      log := log + [Finished(m, NotJoined)];
      totalSkipped := totalSkipped + 1;
      globalConsecutiveFails := globalConsecutiveFails + 1;
      var w := workers[i];
      if globalConsecutiveFails >= ABORT_AFTER_FAILS && totalAdded == 0 {
        stopEvent := true;
        workers := workers[i := w.(skipsInRow := w.skipsInRow + 1, phase := Left(AbortGuard))];
      } else if w.skipsInRow + 1 >= SKIPS_BEFORE_REST {
        workers := workers[i := w.(skipsInRow := 0, phase := Pausing(true))];
      } else {
        workers := workers[i := w.(skipsInRow := w.skipsInRow + 1, phase := Pausing(false))];
      }
    }

    method CountJoined(i: nat, m: Member, breakNow: bool)
      requires i < |workers|
      modifies this`workers, this`totalAdded, this`globalConsecutiveFails, this`log
      ensures Value() == Counted(old(Value()), i, m, Joined, breakNow)
    {
      log := log + [Finished(m, Joined)];
      totalAdded := totalAdded + 1;
      globalConsecutiveFails := 0;
      var w := workers[i];
      workers := workers[i := w.(added := w.added + 1, strikes := 0, skipsInRow := 0,
                                 phase := if breakNow then Breaking else Pausing(false))];
    }

    method CountOther(i: nat, m: Member, o: Outcome, breakNow: bool)
      requires i < |workers| && !o.Joined? && !o.NotJoined?
      modifies this`workers, this`totalFailed, this`totalSkipped, this`globalConsecutiveFails, this`log
      ensures Value() == Counted(old(Value()), i, m, o, breakNow)
    {
      log := log + [Finished(m, o)];
      if o.FloodWaited? || o.OtherError? {
        totalFailed := totalFailed + 1;
      } else {
        totalSkipped := totalSkipped + 1;
      }
      if o.Privacy? {
        globalConsecutiveFails := globalConsecutiveFails + 1;
      }
      SetPhase(i, if o.FloodWaited? then Left(FloodWaitExit)
                  else if o.TooManyChannels? then AtLoop else Pausing(false));
    }

    /** One step of worker i, whatever it is waiting for. */
    method Perform(i: nat, c: Choice)
      requires Valid() && Enabled(Value(), Step(i, c))
      modifies this, blockedIds, cache, cache.db, cache.ids
      ensures Valid() && blockedIds == old(blockedIds)
      ensures View() == Act(old(View()), Work(i, c), group, phones)
      ensures cache.ids == null || cache.ids == old(cache.ids)
    {
      ActOfWork(View(), i, c, group, phones);
      if workers[i].phase.Inviting? {
        InviteAnswered(i, c.reply, c.breakNow);
      } else {
        PerformQuietly(i, c);
      }
    }

    /** A step that is no answer to an invitation: the tables and the cache have no part in it. */
    method PerformQuietly(i: nat, c: Choice)
      requires Valid() && Enabled(Value(), Step(i, c)) && !workers[i].phase.Inviting?
      modifies this`queue, this`workers, this`totalSkipped, this`log, this`dequeues
      ensures Value() == Next(old(Value()), Step(i, c)) && |workers| == old(|workers|)
    {
      if workers[i].phase.AtLoop? {
        TurnLoop(i);
      } else if workers[i].phase.Resolving? {
        ResolveAnswered(i, c);
      } else if workers[i].phase.Throttled? {
        ThrottleDone(i);
      } else {
        EndWait(i, c);
      }
    }

    /** Another handler books a join: the run's set sees it exactly when it is still the cached one. */
    method MarkedElsewhere(otherGroup: int, uid: int, phone: string)
      requires Valid()
      modifies cache.db, cache.ids
      ensures Valid() && View() == Act(old(View()), JoinElsewhere(otherGroup, uid, phone), group, phones)
    {
      cache.MarkUserAsAdded(otherGroup, uid, phone);
    }

    /** Another handler lists somebody as never to be added, which parts the run's set from the cache. */
    method RefusedElsewhere(uid: int, reason: string)
      requires Valid()
      modifies cache, cache.db
      ensures Valid() && cache.ids == null
      ensures View() == Act(old(View()), RefuseElsewhere(uid, reason), group, phones)
    {
      cache.NeverAddAgain(uid, reason);
    }

    /** Another handler asks for the blocked ids, which may read them afresh. */
    method AskedElsewhere(now: real)
      requires Valid()
      modifies cache
      ensures Valid() && View() == Act(old(View()), AskElsewhere(now), group, phones)
      ensures cache.ids == old(cache.ids) || fresh(cache.ids)
    {
      var _ := cache.GetBlockedIds(now);
    }

    /** Another run is opened. */
    method OpenedElsewhere(now: real)
      requires Valid()
      modifies cache
      ensures Valid() && View() == Act(old(View()), OpenElsewhere(now), group, phones)
      ensures fresh(cache.ids)
    {
      cache.Invalidate();
      var _ := cache.GetBlockedIds(now);
    }

    method WorkIfPossible(i: nat, c: Choice)
      requires Valid()
      modifies this, blockedIds, cache, cache.db, cache.ids
      ensures Valid() && blockedIds == old(blockedIds)
      ensures cache.ids == null || cache.ids == old(cache.ids)
      ensures View() == Act(old(View()), Work(i, c), group, phones)
    {
      var possible := false;
      if i < |workers| {
        possible := CanStep(i, c);
      }
      if possible {
        Perform(i, c);
      }
    }

    /** One deed: it has its effect on the run, the tables and the cache, or none if it is impossible. */
    method Happen(d: Deed)
      requires Valid()
      modifies this, blockedIds, cache, cache.db, cache.ids
      ensures Valid() && blockedIds == old(blockedIds)
      ensures cache.ids == null || cache.ids == old(cache.ids) || fresh(cache.ids)
      ensures View() == Act(old(View()), d, group, phones)
    {
      match d {
        case Work(i, c) => WorkIfPossible(i, c);
        case Stop => stopEvent := true;
        case Flags(requested, parallel) => stopRequested, stopParallel := requested, parallel;
        case _ => HappenElsewhere(d);
      }
    }

    method HappenElsewhere(d: Deed)
      requires Valid() && (d.JoinElsewhere? || d.RefuseElsewhere? || d.AskElsewhere? || d.OpenElsewhere?)
      modifies cache, cache.db, cache.ids
      ensures Valid() && View() == Act(old(View()), d, group, phones)
      ensures cache.ids == null || cache.ids == old(cache.ids) || fresh(cache.ids)
    {
      match d {
        case JoinElsewhere(other, uid, phone) => MarkedElsewhere(other, uid, phone);
        case RefuseElsewhere(uid, reason) => RefusedElsewhere(uid, reason);
        case AskElsewhere(now) => AskedElsewhere(now);
        case OpenElsewhere(now) => OpenedElsewhere(now);
      }
    }

    /**
     * All deeds in order: the run, the tables and the cache end up where ActAll says, by exactly those
     * events of the step system that were possible when their turn came.
     */
    method Drive(ds: seq<Deed>)
      requires Valid()
      modifies this, blockedIds, cache, cache.db, cache.ids
      ensures Valid() && blockedIds == old(blockedIds)
      ensures View() == ActAll(old(View()), ds, group, phones)
      ensures Leads(old(Value()), Events(old(View()), ds, group, phones), Value())
    {
      DeedsAreARun(View(), ds, group, phones);
      var k := 0;
      while k < |ds|
        invariant 0 <= k <= |ds|
        invariant Valid() && blockedIds == old(blockedIds)
        invariant cache.ids == null || cache.ids == old(cache.ids) || fresh(cache.ids)
        invariant ActAll(View(), ds[k..], group, phones) == ActAll(old(View()), ds, group, phones)
      {
        assert ds[k..][0] == ds[k] && ds[k..][1..] == ds[k + 1..];
        Happen(ds[k]);
        k := k + 1;
      }
      assert ds[k..] == [];
    }

    method CanStep(i: nat, c: Choice) returns (r: bool)
      requires i < |workers|
      ensures r == Possible(Value(), workers[i], c)
    {
      r := match workers[i].phase
      case Launching => c.Go? || c.Fail? || (c.StopSeen? && stopEvent)
      case Connecting => c.Go? || c.Fail?
      case AtLoop => c.Go?
      case Resolving(_, _) => c.Go? || c.Fail? || c.Flooded?
      case Throttled(_) => c.Go?
      case Inviting(_) => c.Invite? && ValidReply(c.reply)
      case Left(_) => false
      case _ => c.Go? || (c.StopSeen? && stopEvent);
    }
  }
}
