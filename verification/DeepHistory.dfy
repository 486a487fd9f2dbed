/** The harvester as an object, the deep-history loop that feeds it, and the membership oracle. */
module DeepHistory {
  import opened Common
  import opened DeepScan
  import opened Harvester
  import opened PageScan

  class MessageHarvester {
    const existing: set<int>
    var messagesSeen: nat
    var reactionMsgIds: seq<int>
    var pollMsgIds: seq<int>
    var counts: map<Source, nat>
    var seenUsers: set<int>
    /** What the sink has been given so far. */
    var sink: seq<Sighting>

    ghost function Value(): Harvest
      reads this
    {
      Harvest(seenUsers, counts, sink)
    }

    constructor (existing: set<int>)
      ensures this.existing == existing && Value() == NOTHING
      ensures messagesSeen == 0 && reactionMsgIds == [] && pollMsgIds == []
    {
      this.existing := existing;
      messagesSeen, reactionMsgIds, pollMsgIds := 0, [], [];
      counts, seenUsers, sink := map[], {}, [];
    }

    /** _take, and the call of the sink when it says yes. */
    method Offer(user: User, source: Source) returns (found: nat)
      modifies this`counts, this`seenUsers, this`sink
      ensures Value() == Take(old(Value()), existing, Sighting(user, source))
      ensures found == |sink| - |old(sink)|
    {
      if user.id == 0 || user.id in seenUsers || user.id in existing {
        return 0;
      }
      if user.bot || user.deleted {
        return 0;
      }
      seenUsers := seenUsers + {user.id};
      counts := counts[source := (if source in counts then counts[source] else 0) + 1];
      sink := sink + [Sighting(user, source)];
      found := 1;
    }

    method OfferIf(user: Option<User>, source: Source) returns (found: nat)
      modifies this`counts, this`seenUsers, this`sink
      ensures Value() == Feed(old(Value()), existing, Sight(user, source))
      ensures found == |sink| - |old(sink)|
    {
      found := 0;
      if user.Some? {
        assert Feed(Take(Value(), existing, Sighting(user.value, source)), existing, [])
            == Take(Value(), existing, Sighting(user.value, source));
        found := Offer(user.value, source);
      }
    }

    method OfferJoins(users: seq<User>) returns (found: nat)
      modifies this`counts, this`seenUsers, this`sink
      ensures Value() == Feed(old(Value()), existing, Joins(users))
      ensures found == |sink| - |old(sink)|
    {
      found := 0;
      var i := 0;
      while i < |users|
        invariant 0 <= i <= |users|
        invariant Feed(Value(), existing, Joins(users[i..])) == Feed(old(Value()), existing, Joins(users))
        invariant found == |sink| - |old(sink)|
      {
        assert users[i..][0] == users[i] && users[i..][1..] == users[i + 1..];
        assert Joins(users[i..])[1..] == Joins(users[i + 1..]);
        var n := Offer(users[i], FromJoin);
        found := found + n;
        i := i + 1;
      }
      assert users[i..] == [];
    }

    method OfferMentions(entities: seq<Entity>) returns (found: nat)
      modifies this`counts, this`seenUsers, this`sink
      ensures Value() == Feed(old(Value()), existing, Mentions(entities))
      ensures found == |sink| - |old(sink)|
    {
      found := 0;
      var i := 0;
      while i < |entities|
        invariant 0 <= i <= |entities|
        invariant Feed(Value(), existing, Mentions(entities[i..])) == Feed(old(Value()), existing, Mentions(entities))
        invariant found == |sink| - |old(sink)|
      {
        var e := entities[i];
        assert entities[i..][0] == e && entities[i..][1..] == entities[i + 1..];
        if e.user.Some? && e.mention {
          assert Mentions(entities[i..])[1..] == Mentions(entities[i + 1..]);
          var n := Offer(e.user.value, FromMention);
          found := found + n;
        } else {
          assert Mentions(entities[i..]) == Mentions(entities[i + 1..]);
        }
        i := i + 1;
      }
      assert entities[i..] == [];
    }

    method OfferReply(reply: Option<Replied>) returns (found: nat)
      modifies this`counts, this`seenUsers, this`sink
      ensures Value() == Feed(old(Value()), existing, RepliedSightings(reply))
      ensures found == |sink| - |old(sink)|
    {
      found := 0;
      if reply.Some? {
        FeedConcat(Value(), existing, Sight(reply.value.from, FromReply), Sight(reply.value.forwardFrom, FromReplyFwd));
        var a := OfferIf(reply.value.from, FromReply);
        var b := OfferIf(reply.value.forwardFrom, FromReplyFwd);
        found := a + b;
      }
    }

    /** One message: every source is looked at, in this order. */
    method Consume(m: Message) returns (found: nat)
      modifies this
      ensures Value() == Feed(old(Value()), existing, Sightings(m))
      ensures Consumed(old(Value()), Value(), existing, m)
      ensures found == |sink| - |old(sink)|
      ensures messagesSeen == old(messagesSeen) + 1
      ensures reactionMsgIds == old(reactionMsgIds) + (if m.reactions then [m.id] else [])
      ensures pollMsgIds == old(pollMsgIds) + (if m.poll then [m.id] else [])
    {
      messagesSeen := messagesSeen + 1;
      MessageIsConsumed(Value(), existing, m);
      FeedInParts(Value(), existing, m);
      var a := OfferIf(m.from, FromMsg);
      var b := OfferIf(m.forwardFrom, FromFwd);
      var c := OfferReply(m.reply);
      var d := OfferJoins(m.newMembers);
      var e := OfferMentions(m.entities);
      if m.reactions {
        reactionMsgIds := reactionMsgIds + [m.id];
      }
      if m.poll {
        pollMsgIds := pollMsgIds + [m.id];
      }
      found := a + b + c + d + e;
    }
  }

  /** A message's sightings, source by source. */
  lemma FeedInParts(h: Harvest, existing: set<int>, m: Message)
    ensures Feed(h, existing, Sightings(m))
         == var h1 := Feed(h, existing, Sight(m.from, FromMsg));
            var h2 := Feed(h1, existing, Sight(m.forwardFrom, FromFwd));
            var h3 := Feed(h2, existing, RepliedSightings(m.reply));
            Feed(Feed(h3, existing, Joins(m.newMembers)), existing, Mentions(m.entities))
  {
    var a, b, c := Sight(m.from, FromMsg), Sight(m.forwardFrom, FromFwd), RepliedSightings(m.reply);
    var d, e := Joins(m.newMembers), Mentions(m.entities);
    FeedConcat(h, existing, a, b);
    FeedConcat(h, existing, a + b, c);
    FeedConcat(h, existing, a + b + c, d);
    FeedConcat(h, existing, a + b + c + d, e);
  }

  /** Feed the harvester all of ms. */
  method ConsumePart(h: MessageHarvester, ms: seq<Message>)
    modifies h
    ensures h.Value() == FeedAll(old(h.Value()), h.existing, ms)
    ensures h.reactionMsgIds == old(h.reactionMsgIds) + NotedIds(ms, Reactions)
    ensures h.pollMsgIds == old(h.pollMsgIds) + NotedIds(ms, Polls)
    ensures h.messagesSeen == old(h.messagesSeen) + |ms|
  {
    var got := 0;
    assert FeedAll(h.Value(), h.existing, ms[..0]) == h.Value();
    while got < |ms|
      invariant 0 <= got <= |ms|
      invariant h.Value() == FeedAll(old(h.Value()), h.existing, ms[..got])
      invariant h.reactionMsgIds == old(h.reactionMsgIds) + NotedIds(ms[..got], Reactions)
      invariant h.pollMsgIds == old(h.pollMsgIds) + NotedIds(ms[..got], Polls)
      invariant h.messagesSeen == old(h.messagesSeen) + got
    {
      ConsumeNext(h, ms, got, old(h.Value()), old(h.reactionMsgIds), old(h.pollMsgIds));
      got := got + 1;
    }
    assert ms[..got] == ms;
  }

  /** One more message, after n of them. */
  method ConsumeNext(h: MessageHarvester, ms: seq<Message>, n: nat,
                     ghost h0: Harvest, ghost rids: seq<int>, ghost pids: seq<int>)
    requires n < |ms| && h.Value() == FeedAll(h0, h.existing, ms[..n])
    requires h.reactionMsgIds == rids + NotedIds(ms[..n], Reactions) && h.pollMsgIds == pids + NotedIds(ms[..n], Polls)
    modifies h
    ensures h.Value() == FeedAll(h0, h.existing, ms[..n + 1])
    ensures h.reactionMsgIds == rids + NotedIds(ms[..n + 1], Reactions)
    ensures h.pollMsgIds == pids + NotedIds(ms[..n + 1], Polls)
    ensures h.messagesSeen == old(h.messagesSeen) + 1
  {
    FeedOneMore(h0, h.existing, ms, n);
    NotedNext(ms, n, Reactions);
    NotedNext(ms, n, Polls);
    Regroup(rids, NotedIds(ms[..n], Reactions), if ms[n].reactions then [ms[n].id] else []);
    Regroup(pids, NotedIds(ms[..n], Polls), if ms[n].poll then [ms[n].id] else []);
    var _ := h.Consume(ms[n]);
  }

  lemma FeedOneMore(h: Harvest, existing: set<int>, ms: seq<Message>, n: nat)
    requires n < |ms|
    ensures FeedAll(h, existing, ms[..n + 1]) == Feed(FeedAll(h, existing, ms[..n]), existing, Sightings(ms[n]))
  {
    assert ms[..n + 1] == ms[..n] + [ms[n]];
    FeedAllConcat(h, existing, ms[..n], [ms[n]]);
    assert [ms[n]][1..] == [];
  }

  /** From h0 and the notes rids and pids, h has gathered what a clean pass over ms gathers. */
  ghost predicate GatheredFrom(h: MessageHarvester, h0: Harvest, rids: seq<int>, pids: seq<int>, ms: seq<Message>)
    reads h
  {
    && h.Value() == FeedAll(h0, h.existing, ms)
    && NotesOf(h.reactionMsgIds, rids, ms, Reactions)
    && NotesOf(h.pollMsgIds, pids, ms, Polls)
  }

  /** What a clean pass up to reach gathers, and reading from a to c besides: a clean pass up to the further. */
  lemma GatherOn(v: Harvest, v': Harvest, h0: Harvest, existing: set<int>, ms: seq<Message>, a: nat, b: nat, c: nat,
                 d: nat)
    requires a <= b <= |ms| && a <= c <= |ms| && d == if c > b then c else b
    requires v == FeedAll(h0, existing, ms[..b]) && v' == FeedAll(v, existing, ms[a..c])
    ensures v' == FeedAll(h0, existing, ms[..d])
  {
    RereadIsHarmless(h0, existing, ms, a, b, c);
  }

  /** Read the messages from scanned to upto, when a clean pass has so far reached the position reach. */
  method ReadOn(h: MessageHarvester, rest: seq<Message>, scanned: nat, upto: nat,
                ghost h0: Harvest, ghost rids: seq<int>, ghost pids: seq<int>, ghost reach: nat)
    returns (ghost reach': nat)
    requires scanned <= reach <= |rest| && scanned <= upto <= |rest|
    requires GatheredFrom(h, h0, rids, pids, rest[..reach])
    modifies h
    ensures reach' == Further(reach, upto)
    ensures GatheredFrom(h, h0, rids, pids, rest[..reach'])
    ensures h.reactionMsgIds == old(h.reactionMsgIds) + NotedIds(rest[scanned..upto], Reactions)
    ensures h.pollMsgIds == old(h.pollMsgIds) + NotedIds(rest[scanned..upto], Polls)
    ensures h.messagesSeen == old(h.messagesSeen) + upto - scanned
  {
    ghost var v, r, p := h.Value(), h.reactionMsgIds, h.pollMsgIds;
    ConsumePart(h, rest[scanned..upto]);
    reach' := Further(reach, upto);
    GatherOn(v, h.Value(), h0, h.existing, rest, scanned, reach, upto, reach');
    NotesAgain(r, h.reactionMsgIds, rids, rest, scanned, reach, upto, reach', Reactions);
    NotesAgain(p, h.pollMsgIds, pids, rest, scanned, reach, upto, reach', Polls);
  }

  /** What a harvester's lists were before, and what reading the stretches parts has added to them. */
  ghost predicate ListsAre(h: MessageHarvester, rids: seq<int>, pids: seq<int>, seen: nat,
                           rest: seq<Message>, parts: seq<(nat, nat)>)
    reads h
  {
    && Within(parts, 0, |rest|)
    && h.reactionMsgIds == rids + NotedOver(rest, parts, Reactions)
    && h.pollMsgIds == pids + NotedOver(rest, parts, Polls)
    && h.messagesSeen == seen + ReadLength(parts)
  }

  lemma OneMoreList(ids: seq<int>, ids': seq<int>, ids0: seq<int>, rest: seq<Message>, parts: seq<(nat, nat)>,
                    a: nat, b: nat, kind: Kind)
    requires Within(parts, 0, |rest|) && a <= b <= |rest|
    requires ids == ids0 + NotedOver(rest, parts, kind) && ids' == ids + NotedIds(rest[a..b], kind)
    ensures Within(parts + [(a, b)], 0, |rest|) && ReadLength(parts + [(a, b)]) == ReadLength(parts) + b - a
    ensures ids' == ids0 + NotedOver(rest, parts + [(a, b)], kind)
  {
    NotedOverOneMore(rest, parts, a, b, kind);
    Regroup(ids0, NotedOver(rest, parts, kind), NotedIds(rest[a..b], kind));
  }

  /** Read a stretch, and keep account of what has been gathered and listed. */
  method ReadPart(h: MessageHarvester, rest: seq<Message>, scanned: nat, upto: nat,
                  ghost h0: Harvest, ghost rids: seq<int>, ghost pids: seq<int>, ghost seen: nat,
                  ghost reach: nat, ghost parts: seq<(nat, nat)>)
    returns (ghost reach': nat)
    requires scanned <= reach <= |rest| && scanned <= upto <= |rest|
    requires GatheredFrom(h, h0, rids, pids, rest[..reach]) && ListsAre(h, rids, pids, seen, rest, parts)
    modifies h
    ensures reach' == Further(reach, upto)
    ensures GatheredFrom(h, h0, rids, pids, rest[..reach'])
    ensures ListsAre(h, rids, pids, seen, rest, parts + [(scanned, upto)])
  {
    ghost var r, p := h.reactionMsgIds, h.pollMsgIds;
    reach' := ReadOn(h, rest, scanned, upto, h0, rids, pids, reach);
    OneMoreList(r, h.reactionMsgIds, rids, rest, parts, scanned, upto, Reactions);
    OneMoreList(p, h.pollMsgIds, pids, rest, parts, scanned, upto, Polls);
  }

  /** How far the next attempt at the batch from scanned on gets, and where that leaves the loop. */
  method TakeTurn(n: nat, scanned: nat, batch: nat, todo: seq<Attempt>)
    returns (upto: nat, scanned': nat, todo': seq<Attempt>, over: bool)
    requires scanned <= n
    ensures Turn(upto, scanned', todo', over) == TurnOf(n, scanned, batch, todo)
  {
    var attempt;
    attempt, todo' := Full, todo;
    if todo != [] {
      attempt, todo' := todo[0], todo[1..];
    }
    var got := GotOf(attempt, PageEnd(n, scanned, batch) - scanned);
    upto, scanned', over := scanned + got, scanned, false;
    if attempt.Flood? {
      return;
    }
    if attempt.Broken? {
      over := true;
      return;
    }
    if got == 0 {
      over := true;
      return;
    }
    scanned', over := scanned + got, attempt.Stopped?;
  }

  /** One turn of the loop: one attempt at the batch from scanned on. */
  method TryBatch(h: MessageHarvester, rest: seq<Message>, scanned: nat, limit: int, batch: nat, todo: seq<Attempt>,
                  ghost h0: Harvest, ghost rids: seq<int>, ghost pids: seq<int>, ghost seen: nat,
                  ghost reach: nat, ghost parts: seq<(nat, nat)>)
    returns (scanned': nat, ghost reach': nat, ghost parts': seq<(nat, nat)>, todo': seq<Attempt>, over: bool)
    requires scanned <= reach <= |rest| && scanned < limit
    requires GatheredFrom(h, h0, rids, pids, rest[..reach]) && ListsAre(h, rids, pids, seen, rest, parts)
    modifies h
    ensures scanned' <= reach' <= |rest|
    ensures GatheredFrom(h, h0, rids, pids, rest[..reach']) && ListsAre(h, rids, pids, seen, rest, parts')
    ensures Scan(|rest|, scanned, reach, parts, limit, batch, todo)
         == if over then (scanned', reach', parts') else Scan(|rest|, scanned', reach', parts', limit, batch, todo')
    ensures |todo'| < |todo| || (todo' == todo && (over || scanned' > scanned))
  {
    ScanUnfolds(|rest|, scanned, reach, parts, limit, batch, todo);
    var upto;
    upto, scanned', todo', over := TakeTurn(|rest|, scanned, batch, todo);
    parts' := parts + [(scanned, upto)];
    reach' := ReadPart(h, rest, scanned, upto, h0, rids, pids, seen, reach, parts);
  }

  /** Before anything is read. */
  lemma NothingRead(h: MessageHarvester, rest: seq<Message>)
    ensures GatheredFrom(h, h.Value(), h.reactionMsgIds, h.pollMsgIds, rest[..0])
    ensures ListsAre(h, h.reactionMsgIds, h.pollMsgIds, h.messagesSeen, rest, [])
  {
    assert rest[..0] == [];
  }

  /**
   * The batch loop of scrape_deep_history over rest, the history from where the first pass ended.  A
   * flood makes it read the same batch again; whatever the floods, the users, labels and counts, and the
   * sets of messages to be asked about, are those of one clean pass over the messages that whole batches
   * up to limit cover.  If an attempt breaks or the user stops it, they are those of a clean pass up to
   * the furthest message read.  The lists of those messages, and their number, are those of the stretches
   * read, repeats and all.
   */
  method ScrapeDeepHistory(h: MessageHarvester, rest: seq<Message>, limit: int, batch: nat, script: seq<Attempt>)
    returns (scanned: nat, ghost reach: nat)
    requires batch > 0
    modifies h
    ensures (scanned, reach, Reads(|rest|, 0, limit, batch, script)) == Scan(|rest|, 0, 0, [], limit, batch, script)
    ensures scanned <= reach <= CleanEnd(|rest|, 0, limit, batch)
    ensures GatheredFrom(h, old(h.Value()), old(h.reactionMsgIds), old(h.pollMsgIds), rest[..reach])
    ensures ListsAre(h, old(h.reactionMsgIds), old(h.pollMsgIds), old(h.messagesSeen),
                     rest, Reads(|rest|, 0, limit, batch, script))
    ensures OnlyFloods(script) ==> scanned == reach == CleanEnd(|rest|, 0, limit, batch)
  {
    scanned, reach := 0, 0;
    var todo := script;
    ghost var h0, rids, pids, seen := h.Value(), h.reactionMsgIds, h.pollMsgIds, h.messagesSeen;
    ghost var goal := Scan(|rest|, 0, 0, [], limit, batch, script);
    ghost var parts: seq<(nat, nat)> := [];
    NothingRead(h, rest);
    ScanEnds(|rest|, 0, 0, [], limit, batch, script);
    ScanFromStart(|rest|, limit, batch, script);
    while scanned < limit
      invariant scanned <= reach <= |rest|
      invariant Scan(|rest|, scanned, reach, parts, limit, batch, todo) == goal
      invariant GatheredFrom(h, h0, rids, pids, rest[..reach]) && ListsAre(h, rids, pids, seen, rest, parts)
      decreases |todo|, |rest| - scanned
    {
      var over;
      scanned, reach, parts, todo, over :=
        TryBatch(h, rest, scanned, limit, batch, todo, h0, rids, pids, seen, reach, parts);
      if over {
        break;
      }
    }
    assert (scanned, reach, parts) == goal;
  }

  // ---------------------------------------------------------------- the membership oracle

  /** What the server says about one candidate: a member, not one (or an error), or a flood. */
  datatype Reply = IsMember | NotMember | FloodWait

  datatype Query = Mark(uid: int) | Ask(uid: int, reply: Reply)

  datatype Oracle = Oracle(members: set<int>, outsiders: set<int>, made: nat, saved: nat)
  {
    predicate Settled(uid: int) { uid in members || uid in outsiders }
  }

  function Put(o: Oracle, q: Query): Oracle {
    match q
    case Mark(uid) => o.(members := o.members + {uid})
    case Ask(uid, reply) =>
      if o.Settled(uid) then o.(saved := o.saved + 1)
      else match reply
           case IsMember => o.(made := o.made + 1, members := o.members + {uid})
           case NotMember => o.(made := o.made + 1, outsiders := o.outsiders + {uid})
           case FloodWait => o.(made := o.made + 1)
  }

  function PutAll(o: Oracle, qs: seq<Query>): Oracle
    decreases |qs|
  {
    if qs == [] then o else PutAll(Put(o, qs[0]), qs[1..])
  }

  /** Requests sent about uid, those of them that were met by a flood, and those that were answered. */
  function Sent(o: Oracle, qs: seq<Query>, uid: int): nat
    decreases |qs|
  {
    if qs == [] then 0
    else (if Sends(o, qs[0], uid) then 1 else 0) + Sent(Put(o, qs[0]), qs[1..], uid)
  }

  function Flooded(o: Oracle, qs: seq<Query>, uid: int): nat
    decreases |qs|
  {
    if qs == [] then 0
    else (if Sends(o, qs[0], uid) && qs[0].reply.FloodWait? then 1 else 0) + Flooded(Put(o, qs[0]), qs[1..], uid)
  }

  function AnsweredAsks(o: Oracle, qs: seq<Query>, uid: int): nat
    decreases |qs|
  {
    if qs == [] then 0
    else (if Sends(o, qs[0], uid) && !qs[0].reply.FloodWait? then 1 else 0) + AnsweredAsks(Put(o, qs[0]), qs[1..], uid)
  }

  /** A query that makes a request about uid. */
  predicate Sends(o: Oracle, q: Query, uid: int) { q.Ask? && q.uid == uid && !o.Settled(uid) }

  /** The requests about a candidate are its floods and at most one answer, none if it is settled already. */
  lemma {:induction false} OneRequestEach(o: Oracle, qs: seq<Query>, uid: int)
    ensures Sent(o, qs, uid) == Flooded(o, qs, uid) + AnsweredAsks(o, qs, uid)
    ensures AnsweredAsks(o, qs, uid) <= if o.Settled(uid) then 0 else 1
    ensures o.Settled(uid) ==> Flooded(o, qs, uid) == 0 && PutAll(o, qs).Settled(uid)
    decreases |qs|
  {
    if qs != [] {
      OneRequestEach(Put(o, qs[0]), qs[1..], uid);
    }
  }

  /** A query after which uid is settled: it is known as a member, or was asked about and answered. */
  predicate Settles(q: Query, uid: int) {
    q.uid == uid && (q.Mark? || !q.reply.FloodWait?)
  }

  /** Query j asks about uid, and nothing before it settled uid. */
  ghost predicate AsksOpen(qs: seq<Query>, j: int, uid: int) {
    && 0 <= j < |qs| && qs[j].Ask? && qs[j].uid == uid
    && forall i :: 0 <= i < j ==> !Settles(qs[i], uid)
  }

  lemma AsksOpenShift(qs: seq<Query>, j: int, uid: int)
    requires qs != [] && j >= 1
    ensures AsksOpen(qs, j, uid) <==> !Settles(qs[0], uid) && AsksOpen(qs[1..], j - 1, uid)
  {
    if AsksOpen(qs[1..], j - 1, uid) && !Settles(qs[0], uid) {
      forall i | 0 <= i < j ensures !Settles(qs[i], uid) {
        if i > 0 {
          assert qs[i] == qs[1..][i - 1];
        }
      }
    }
    if AsksOpen(qs, j, uid) {
      forall i | 0 <= i < j - 1 ensures !Settles(qs[1..][i], uid) {
        assert qs[1..][i] == qs[i + 1];
      }
    }
  }

  lemma {:induction false} SomeRequestIff(o: Oracle, qs: seq<Query>, uid: int)
    requires !o.Settled(uid)
    ensures Sent(o, qs, uid) >= 1 <==> exists j :: AsksOpen(qs, j, uid)
    decreases |qs|
  {
    if qs != [] {
      if Sends(o, qs[0], uid) {
        assert AsksOpen(qs, 0, uid);
      } else if Settles(qs[0], uid) {
        OneRequestEach(Put(o, qs[0]), qs[1..], uid);
        forall j ensures !AsksOpen(qs, j, uid) {
        }
      } else {
        SomeRequestIff(Put(o, qs[0]), qs[1..], uid);
        forall j | j >= 1 ensures AsksOpen(qs, j, uid) <==> AsksOpen(qs[1..], j - 1, uid) {
          AsksOpenShift(qs, j, uid);
        }
        if j :| AsksOpen(qs[1..], j, uid) {
          assert AsksOpen(qs, j + 1, uid);
        }
      }
    }
  }

  /** Some candidate is asked about again when all that its first request met was a flood. */
  ghost predicate AskedAgainAfterFlood(qs: seq<Query>, uid: int) {
    exists i, j :: i < j && AsksOpen(qs, i, uid) && AsksOpen(qs, j, uid)
  }

  /**
   * Exactly when the promise of one request per candidate is broken: a candidate that is not settled is
   * asked about, that meets a flood, and it is asked about again before anything has settled it.
   */
  lemma {:induction false} MoreThanOneRequestIff(o: Oracle, qs: seq<Query>, uid: int)
    requires !o.Settled(uid)
    ensures Sent(o, qs, uid) >= 2 <==> AskedAgainAfterFlood(qs, uid)
    decreases |qs|
  {
    if qs != [] {
      var rest := qs[1..];
      if Settles(qs[0], uid) {
        OneRequestEach(Put(o, qs[0]), rest, uid);
        forall i, j | i < j ensures !(AsksOpen(qs, i, uid) && AsksOpen(qs, j, uid)) {
        }
      } else {
        SomeRequestIff(Put(o, qs[0]), rest, uid);
        MoreThanOneRequestIff(Put(o, qs[0]), rest, uid);
        forall j | j >= 1 ensures AsksOpen(qs, j, uid) <==> AsksOpen(rest, j - 1, uid) {
          AsksOpenShift(qs, j, uid);
        }
        AgainByCases(qs, uid);
      }
    }
  }

  lemma AgainByCases(qs: seq<Query>, uid: int)
    requires qs != []
    requires forall j :: j >= 1 ==> (AsksOpen(qs, j, uid) <==> AsksOpen(qs[1..], j - 1, uid))
    ensures AskedAgainAfterFlood(qs, uid)
       <==> (AsksOpen(qs, 0, uid) && exists j :: AsksOpen(qs[1..], j, uid)) || AskedAgainAfterFlood(qs[1..], uid)
  {
    var rest := qs[1..];
    if AskedAgainAfterFlood(qs, uid) {
      var i, j :| i < j && AsksOpen(qs, i, uid) && AsksOpen(qs, j, uid);
      assert AsksOpen(rest, j - 1, uid);
      if i > 0 {
        assert AsksOpen(rest, i - 1, uid);
      }
    }
    if j :| AsksOpen(qs, 0, uid) && AsksOpen(rest, j, uid) {
      assert AsksOpen(qs, j + 1, uid);
    }
    if AskedAgainAfterFlood(rest, uid) {
      var i, j :| i < j && AsksOpen(rest, i, uid) && AsksOpen(rest, j, uid);
      assert AsksOpen(qs, i + 1, uid) && AsksOpen(qs, j + 1, uid);
    }
  }

  /** Two requests for one candidate: a flood, then an answer. */
  lemma FloodCostsASecondRequest()
    ensures Sent(Oracle({}, {}, 0, 0), [Ask(7, FloodWait), Ask(7, NotMember)], 7) == 2
  {
    var o := Oracle({}, {}, 0, 0);
    var qs := [Ask(7, FloodWait), Ask(7, NotMember)];
    assert qs[1..] == [Ask(7, NotMember)] && qs[1..][1..] == [];
    assert Sent(Put(o, qs[0]), qs[1..], 7) == 1;
  }

  /** The answer: from the two sets for a settled candidate, and otherwise the server's, a flood being a no. */
  function AnswerTo(o: Oracle, q: Query): seq<bool> {
    match q
    case Mark(_) => []
    case Ask(uid, reply) => [if o.Settled(uid) then uid in o.members else reply.IsMember?]
  }

  function Answers(o: Oracle, qs: seq<Query>): seq<bool>
    decreases |qs|
  {
    if qs == [] then []
    else AnswerTo(o, qs[0]) + Answers(Put(o, qs[0]), qs[1..])
  }

  /** Query i says that uid is a member: it was marked as one, or its first settling answer was that it is. */
  ghost predicate SaysMember(qs: seq<Query>, i: int, uid: int) {
    0 <= i < |qs| && (qs[i] == Mark(uid) || (AsksOpen(qs, i, uid) && qs[i].reply.IsMember?))
  }

  ghost predicate SaidMember(qs: seq<Query>, uid: int) { exists i :: SaysMember(qs, i, uid) }

  ghost predicate WasSettled(qs: seq<Query>, uid: int) { exists i :: 0 <= i < |qs| && Settles(qs[i], uid) }

  lemma AsksOpenInPrefix(qs: seq<Query>, q: Query, i: int, uid: int)
    requires 0 <= i < |qs|
    ensures AsksOpen(qs + [q], i, uid) <==> AsksOpen(qs, i, uid)
  {
    assert forall j :: 0 <= j <= i ==> (qs + [q])[j] == qs[j];
    if AsksOpen(qs + [q], i, uid) {
      forall j | 0 <= j < i ensures !Settles(qs[j], uid) {
        assert !Settles((qs + [q])[j], uid);
      }
    }
  }

  lemma SettledOneMore(qs: seq<Query>, q: Query, uid: int)
    ensures WasSettled(qs + [q], uid) <==> WasSettled(qs, uid) || Settles(q, uid)
  {
    var all := qs + [q];
    assert all[|qs|] == q;
    if i :| 0 <= i < |qs| && Settles(qs[i], uid) {
      assert Settles(all[i], uid);
    }
  }

  lemma SaidOneMore(qs: seq<Query>, q: Query, uid: int)
    ensures SaidMember(qs + [q], uid)
       <==> || SaidMember(qs, uid) || q == Mark(uid)
            || (q.Ask? && q.uid == uid && q.reply.IsMember? && !WasSettled(qs, uid))
  {
    var all := qs + [q];
    assert all[|qs|] == q && forall i :: 0 <= i < |qs| ==> all[i] == qs[i];
    forall i | 0 <= i < |qs| ensures SaysMember(all, i, uid) <==> SaysMember(qs, i, uid) {
      AsksOpenInPrefix(qs, q, i, uid);
    }
    if i :| SaysMember(qs, i, uid) {
      assert SaysMember(all, i, uid);
    }
    assert SaysMember(all, |qs|, uid)
      <==> q == Mark(uid) || (q.Ask? && q.uid == uid && q.reply.IsMember? && !WasSettled(qs, uid));
  }

  lemma {:induction false} PutAllOneMore(o: Oracle, qs: seq<Query>, q: Query)
    ensures PutAll(o, qs + [q]) == Put(PutAll(o, qs), q)
    ensures Answers(o, qs + [q]) == Answers(o, qs) + AnswerTo(PutAll(o, qs), q)
    decreases |qs|
  {
    if qs == [] {
      assert ([] + [q])[1..] == [];
      assert AnswerTo(o, q) + [] == AnswerTo(o, q);
      assert [] + AnswerTo(o, q) == AnswerTo(o, q);
    } else {
      assert (qs + [q])[1..] == qs[1..] + [q];
      PutAllOneMore(Put(o, qs[0]), qs[1..], q);
      Regroup(AnswerTo(o, qs[0]), Answers(Put(o, qs[0]), qs[1..]), AnswerTo(PutAll(o, qs), q));
    }
  }

  /** What is known of a candidate after any queries, by what the queries said. */
  lemma {:induction false} KnowledgeIs(o: Oracle, qs: seq<Query>, uid: int)
    requires !o.Settled(uid)
    ensures uid in PutAll(o, qs).members <==> SaidMember(qs, uid)
    ensures PutAll(o, qs).Settled(uid) <==> WasSettled(qs, uid)
    decreases |qs|
  {
    if qs != [] {
      var front, q := qs[..|qs| - 1], qs[|qs| - 1];
      assert qs == front + [q];
      KnowledgeIs(o, front, uid);
      PutAllOneMore(o, front, q);
      SettledOneMore(front, q, uid);
      SaidOneMore(front, q, uid);
    }
  }

  /**
   * After any queries the answer about a candidate is yes exactly if one of them, or this one, said it is a
   * member; so a candidate that is settled gets its first settling answer again.
   */
  lemma AnswersAreRepeated(o: Oracle, qs: seq<Query>, uid: int, reply: Reply)
    requires !o.Settled(uid)
    ensures var all := qs + [Ask(uid, reply)]; Answers(o, all) == Answers(o, qs) + [SaidMember(all, uid)]
  {
    KnowledgeIs(o, qs, uid);
    PutAllOneMore(o, qs, Ask(uid, reply));
    SaidOneMore(qs, Ask(uid, reply), uid);
    SaidIsSettled(qs, uid);
  }

  lemma SaidIsSettled(qs: seq<Query>, uid: int)
    ensures SaidMember(qs, uid) ==> WasSettled(qs, uid)
  {
    if i :| SaysMember(qs, i, uid) {
      assert Settles(qs[i], uid);
    }
  }

  class MembershipOracle {
    var knownMembers: set<int>
    var knownOutsiders: set<int>
    var requestsMade: nat
    var requestsSaved: nat

    ghost function Value(): Oracle
      reads this
    {
      Oracle(knownMembers, knownOutsiders, requestsMade, requestsSaved)
    }

    constructor ()
      ensures Value() == Oracle({}, {}, 0, 0)
    {
      knownMembers, knownOutsiders, requestsMade, requestsSaved := {}, {}, 0, 0;
    }

    method MarkMember(uid: int)
      modifies this
      ensures Value() == Put(old(Value()), Mark(uid))
    {
      knownMembers := knownMembers + {uid};
    }

    /** A whole life of the oracle: what it has learnt, sent and saved is PutAll of the queries. */
    method Serve(qs: seq<Query>) returns (answers: seq<bool>)
      modifies this
      ensures Value() == PutAll(old(Value()), qs)
      ensures answers == Answers(old(Value()), qs)
    {
      answers := [];
      var i := 0;
      ghost var end, all := PutAll(Value(), qs), Answers(Value(), qs);
      while i < |qs|
        invariant 0 <= i <= |qs|
        invariant PutAll(Value(), qs[i..]) == end
        invariant answers + Answers(Value(), qs[i..]) == all
      {
        assert qs[i..][0] == qs[i] && qs[i..][1..] == qs[i + 1..];
        Regroup(answers, AnswerTo(Value(), qs[i]), Answers(Put(Value(), qs[i]), qs[i + 1..]));
        var answer := ServeOne(qs[i]);
        answers := answers + answer;
        i := i + 1;
      }
      assert qs[i..] == [];
    }

    method ServeOne(q: Query) returns (answer: seq<bool>)
      modifies this
      ensures Value() == Put(old(Value()), q) && answer == AnswerTo(old(Value()), q)
    {
      answer := [];
      match q {
        case Mark(uid) => MarkMember(uid);
        case Ask(uid, reply) =>
          var r := IsMember(uid, reply);
          answer := [r];
      }
    }

    method IsMember(uid: int, reply: Reply) returns (r: bool)
      modifies this
      ensures Value() == Put(old(Value()), Ask(uid, reply))
      ensures r == if old(Value()).Settled(uid) then uid in old(knownMembers) else reply.IsMember?
    {
      if uid in knownMembers {
        requestsSaved := requestsSaved + 1;
        return true;
      }
      if uid in knownOutsiders {
        requestsSaved := requestsSaved + 1;
        return false;
      }
      requestsMade := requestsMade + 1;
      match reply {
        case FloodWait => r := false;
        case NotMember =>
          knownOutsiders := knownOutsiders + {uid};
          r := false;
        case IsMember =>
          knownMembers := knownMembers + {uid};
          r := true;
      }
    }
  }
}
