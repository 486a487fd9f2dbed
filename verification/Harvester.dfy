/** The one-pass history harvester of scrape_optimize.py, on values: who is seen where, and what is sent on. */
module Harvester {
  import opened Common

  datatype User = User(id: int, bot: bool, deleted: bool)

  datatype Source = FromMsg | FromFwd | FromReply | FromReplyFwd | FromJoin | FromMention

  datatype Entity = Entity(user: Option<User>, mention: bool)

  datatype Replied = Replied(from: Option<User>, forwardFrom: Option<User>)

  datatype Message = Message(
    id: int,
    from: Option<User>,
    forwardFrom: Option<User>,
    reply: Option<Replied>,
    newMembers: seq<User>,
    entities: seq<Entity>,
    reactions: bool,
    poll: bool)

  datatype Sighting = Sighting(user: User, source: Source)

  // ---------------------------------------------------------------- who is seen where

  function Sight(u: Option<User>, s: Source): seq<Sighting> {
    if u.Some? then [Sighting(u.value, s)] else []
  }

  function Joins(us: seq<User>): seq<Sighting> {
    if us == [] then [] else [Sighting(us[0], FromJoin)] + Joins(us[1..])
  }

  function Mentions(es: seq<Entity>): seq<Sighting> {
    if es == [] then []
    else (if es[0].mention then Sight(es[0].user, FromMention) else []) + Mentions(es[1..])
  }

  function RepliedSightings(r: Option<Replied>): seq<Sighting> {
    if r.Some? then Sight(r.value.from, FromReply) + Sight(r.value.forwardFrom, FromReplyFwd) else []
  }

  /** All the users a message mentions, in the order in which they are looked at. */
  function Sightings(m: Message): seq<Sighting> {
    Sight(m.from, FromMsg) + Sight(m.forwardFrom, FromFwd)
    + RepliedSightings(m.reply) + Joins(m.newMembers) + Mentions(m.entities)
  }

  function AllSightings(ms: seq<Message>): seq<Sighting> {
    if ms == [] then [] else Sightings(ms[0]) + AllSightings(ms[1..])
  }

  /** The sightings of one source: what a pass that extracts only that source looks at. */
  function Only(s: Source, xs: seq<Sighting>): seq<Sighting> {
    if xs == [] then [] else (if xs[0].source == s then [xs[0]] else []) + Only(s, xs[1..])
  }

  // ---------------------------------------------------------------- the harvest

  /** The users seen, how many per source, and what has been sent to the sink, in order. */
  datatype Harvest = Harvest(seen: set<int>, counts: map<Source, nat>, sent: seq<Sighting>)

  const NOTHING := Harvest({}, map[], [])

  predicate Eligible(existing: set<int>, u: User) {
    u.id != 0 && u.id !in existing && !u.bot && !u.deleted
  }

  function Take(h: Harvest, existing: set<int>, x: Sighting): Harvest {
    if Eligible(existing, x.user) && x.user.id !in h.seen then
      Harvest(h.seen + {x.user.id}, h.counts[x.source := CountOf(h.counts, x.source) + 1], h.sent + [x])
    else h
  }

  function Feed(h: Harvest, existing: set<int>, xs: seq<Sighting>): Harvest
    decreases |xs|
  {
    if xs == [] then h else Feed(Take(h, existing, xs[0]), existing, xs[1..])
  }

  function SumCounts(counts: map<Source, nat>): nat {
    CountOf(counts, FromMsg) + CountOf(counts, FromFwd) + CountOf(counts, FromReply)
    + CountOf(counts, FromReplyFwd) + CountOf(counts, FromJoin) + CountOf(counts, FromMention)
  }

  lemma {:induction false} FeedConcat(h: Harvest, existing: set<int>, xs: seq<Sighting>, ys: seq<Sighting>)
    ensures Feed(h, existing, xs + ys) == Feed(Feed(h, existing, xs), existing, ys)
    decreases |xs|
  {
    if xs == [] {
      assert xs + ys == ys;
    } else {
      assert (xs + ys)[1..] == xs[1..] + ys;
      FeedConcat(Take(h, existing, xs[0]), existing, xs[1..], ys);
    }
  }

  /** The eligible users among xs. */
  function Users(existing: set<int>, xs: seq<Sighting>): set<int> {
    set x | x in xs && Eligible(existing, x.user) :: x.user.id
  }

  lemma UsersSplit(existing: set<int>, xs: seq<Sighting>)
    requires xs != []
    ensures Users(existing, xs)
         == (if Eligible(existing, xs[0].user) then {xs[0].user.id} else {}) + Users(existing, xs[1..])
  {
    assert xs == [xs[0]] + xs[1..];
    forall id | id in Users(existing, xs)
      ensures id in (if Eligible(existing, xs[0].user) then {xs[0].user.id} else {}) + Users(existing, xs[1..])
    {
      var x :| x in xs && Eligible(existing, x.user) && x.user.id == id;
      assert x == xs[0] || x in xs[1..];
    }
  }

  /** What is seen is what was seen before and every eligible user of the sightings, whatever their source. */
  lemma {:induction false} FeedSeesUsers(h: Harvest, existing: set<int>, xs: seq<Sighting>)
    ensures Feed(h, existing, xs).seen == h.seen + Users(existing, xs)
    decreases |xs|
  {
    if xs != [] {
      UsersSplit(existing, xs);
      FeedSeesUsers(Take(h, existing, xs[0]), existing, xs[1..]);
    }
  }

  lemma {:induction false} OnlyUsers(existing: set<int>, s: Source, xs: seq<Sighting>)
    ensures forall id :: id in Users(existing, Only(s, xs)) <==>
              exists x :: x in xs && x.source == s && Eligible(existing, x.user) && x.user.id == id
  {
    OnlyMembers(s, xs);
  }

  lemma {:induction false} OnlyMembers(s: Source, xs: seq<Sighting>)
    ensures forall x :: x in Only(s, xs) <==> x in xs && x.source == s
  {
    if xs != [] {
      OnlyMembers(s, xs[1..]);
      assert xs == [xs[0]] + xs[1..];
    }
  }

  /** One pass finds exactly the union of what the six single-source passes find. */
  lemma OnePassIsSixPasses(existing: set<int>, ms: seq<Message>)
    ensures var xs := AllSightings(ms);
            Feed(NOTHING, existing, xs).seen
            == Feed(NOTHING, existing, Only(FromMsg, xs)).seen + Feed(NOTHING, existing, Only(FromFwd, xs)).seen
             + Feed(NOTHING, existing, Only(FromReply, xs)).seen + Feed(NOTHING, existing, Only(FromReplyFwd, xs)).seen
             + Feed(NOTHING, existing, Only(FromJoin, xs)).seen + Feed(NOTHING, existing, Only(FromMention, xs)).seen
  {
    var xs := AllSightings(ms);
    FeedSeesUsers(NOTHING, existing, xs);
    forall s ensures Feed(NOTHING, existing, Only(s, xs)).seen == Users(existing, Only(s, xs)) {
      FeedSeesUsers(NOTHING, existing, Only(s, xs));
    }
    UsersBySource(existing, xs);
  }

  lemma UsersBySource(existing: set<int>, xs: seq<Sighting>)
    ensures Users(existing, xs)
         == Users(existing, Only(FromMsg, xs)) + Users(existing, Only(FromFwd, xs))
          + Users(existing, Only(FromReply, xs))
          + Users(existing, Only(FromReplyFwd, xs)) + Users(existing, Only(FromJoin, xs))
          + Users(existing, Only(FromMention, xs))
  {
    forall s, id | id in Users(existing, Only(s, xs)) ensures id in Users(existing, xs) {
      OnlyUsers(existing, s, xs);
    }
    forall id | id in Users(existing, xs) ensures exists s :: id in Users(existing, Only(s, xs)) {
      var x :| x in xs && Eligible(existing, x.user) && x.user.id == id;
      OnlyUsers(existing, x.source, xs);
    }
  }

  // ---------------------------------------------------------------- once each, first label, counts

  /** Position i is the first eligible sighting of its user. */
  ghost predicate IsFirst(existing: set<int>, xs: seq<Sighting>, i: int) {
    && 0 <= i < |xs| && Eligible(existing, xs[i].user)
    && forall j :: 0 <= j < i ==> !(Eligible(existing, xs[j].user) && xs[j].user.id == xs[i].user.id)
  }

  function Ids(sent: seq<Sighting>): (ids: seq<int>) {
    seq(|sent|, i requires 0 <= i < |sent| => sent[i].user.id)
  }

  lemma {:induction false} OnlyAppend(s: Source, xs: seq<Sighting>, x: Sighting)
    ensures Only(s, xs + [x]) == Only(s, xs) + (if x.source == s then [x] else [])
  {
    if xs == [] {
      assert (xs + [x])[1..] == [];
    } else {
      var first := if xs[0].source == s then [xs[0]] else [];
      var last := if x.source == s then [x] else [];
      assert (xs + [x])[1..] == xs[1..] + [x];
      OnlyAppend(s, xs[1..], x);
      Regroup(first, Only(s, xs[1..]), last);
    }
  }

  /** The count of each source is the number of users sent with its label. */
  ghost predicate CountsMatch(h: Harvest) {
    forall s :: CountOf(h.counts, s) == |Only(s, h.sent)|
  }

  /** What the harvest keeps: one entry per user seen, and counts that add up to them. */
  ghost predicate Tidy(h: Harvest) {
    && |h.sent| == |h.seen| == SumCounts(h.counts)
    && CountsMatch(h)
    && (forall id :: id in h.seen <==> id in Ids(h.sent))
    && (forall j, k :: 0 <= j < k < |h.sent| ==> Ids(h.sent)[j] != Ids(h.sent)[k])
  }

  lemma CountOneMore(counts: map<Source, nat>, s: Source)
    ensures SumCounts(counts[s := CountOf(counts, s) + 1]) == SumCounts(counts) + 1
  {
    var counts' := counts[s := CountOf(counts, s) + 1];
    assert forall r :: CountOf(counts', r) == CountOf(counts, r) + (if r == s then 1 else 0);
  }

  lemma CountsStillMatch(h: Harvest, existing: set<int>, x: Sighting)
    requires CountsMatch(h)
    ensures CountsMatch(Take(h, existing, x))
  {
    var h' := Take(h, existing, x);
    if h' != h {
      forall s ensures CountOf(h'.counts, s) == |Only(s, h'.sent)| {
        OnlyAppend(s, h.sent, x);
        assert CountOf(h.counts, s) == |Only(s, h.sent)|;
      }
    }
  }

  lemma IdsAppend(sent: seq<Sighting>, x: Sighting)
    ensures Ids(sent + [x]) == Ids(sent) + [x.user.id]
  {
  }

  /** A user not seen before is one entry more, and a different one. */
  lemma IdsStayApart(h: Harvest, x: Sighting)
    requires Tidy(h) && x.user.id !in h.seen
    ensures forall id :: id in h.seen + {x.user.id} <==> id in Ids(h.sent + [x])
    ensures forall j, k :: 0 <= j < k < |h.sent| + 1 ==> Ids(h.sent + [x])[j] != Ids(h.sent + [x])[k]
  {
    IdsAppend(h.sent, x);
    assert forall j :: 0 <= j < |h.sent| ==> Ids(h.sent)[j] in h.seen;
  }

  lemma TakeKeepsTidy(h: Harvest, existing: set<int>, x: Sighting)
    requires Tidy(h)
    ensures Tidy(Take(h, existing, x))
  {
    if Eligible(existing, x.user) && x.user.id !in h.seen {
      CountOneMore(h.counts, x.source);
      CountsStillMatch(h, existing, x);
      IdsStayApart(h, x);
    }
  }

  lemma {:induction false} FeedKeepsTidy(h: Harvest, existing: set<int>, xs: seq<Sighting>)
    requires Tidy(h)
    ensures Tidy(Feed(h, existing, xs))
    decreases |xs|
  {
    if xs != [] {
      TakeKeepsTidy(h, existing, xs[0]);
      FeedKeepsTidy(Take(h, existing, xs[0]), existing, xs[1..]);
    }
  }

  ghost predicate WasFirst(existing: set<int>, xs: seq<Sighting>, x: Sighting) {
    exists i :: IsFirst(existing, xs, i) && xs[i] == x
  }

  lemma FirstStaysFirst(existing: set<int>, xs: seq<Sighting>, y: Sighting, x: Sighting)
    requires WasFirst(existing, xs, x)
    ensures WasFirst(existing, xs + [y], x)
  {
    var i :| IsFirst(existing, xs, i) && xs[i] == x;
    assert IsFirst(existing, xs + [y], i);
  }

  lemma NewUserIsFirst(existing: set<int>, xs: seq<Sighting>, y: Sighting)
    requires Eligible(existing, y.user) && y.user.id !in Users(existing, xs)
    ensures WasFirst(existing, xs + [y], y)
  {
    forall j | 0 <= j < |xs| ensures !(Eligible(existing, xs[j].user) && xs[j].user.id == y.user.id) {
      assert xs[j] in xs;
    }
    assert IsFirst(existing, xs + [y], |xs|);
  }

  /** Everything sent was the first eligible sighting of its user. */
  lemma {:induction false} SentAreFirsts(existing: set<int>, xs: seq<Sighting>)
    ensures forall x :: x in Feed(NOTHING, existing, xs).sent ==> WasFirst(existing, xs, x)
    decreases |xs|
  {
    if xs != [] {
      var front, last := xs[..|xs| - 1], xs[|xs| - 1];
      assert xs == front + [last];
      SentAreFirsts(existing, front);
      FeedConcat(NOTHING, existing, front, [last]);
      FeedSeesUsers(NOTHING, existing, front);
      var h := Feed(NOTHING, existing, front);
      assert Feed(h, existing, [last]) == Take(h, existing, last);
      forall x | x in Take(h, existing, last).sent ensures WasFirst(existing, xs, x) {
        if x in h.sent {
          FirstStaysFirst(existing, front, last, x);
        } else {
          NewUserIsFirst(existing, front, last);
        }
      }
    }
  }

  /**
   * Over any history each eligible user is sent to the sink exactly once, with the source of its first
   * eligible sighting, nobody else is sent, and the count of each source is the number sent with its label.
   */
  lemma EachUserOnce(existing: set<int>, ms: seq<Message>)
    ensures var xs := AllSightings(ms);
            var h := Feed(NOTHING, existing, xs);
            && h.seen == Users(existing, xs)
            && |h.sent| == |h.seen| == SumCounts(h.counts)
            && (forall s :: CountOf(h.counts, s) == |Only(s, h.sent)|)
            && (forall id :: id in h.seen <==> id in Ids(h.sent))
            && (forall j, k :: 0 <= j < k < |h.sent| ==> h.sent[j].user.id != h.sent[k].user.id)
            && (forall x :: x in h.sent ==> WasFirst(existing, xs, x))
  {
    var xs := AllSightings(ms);
    FeedSeesUsers(NOTHING, existing, xs);
    FeedKeepsTidy(NOTHING, existing, xs);
    SentAreFirsts(existing, xs);
    var sent := Feed(NOTHING, existing, xs).sent;
    assert forall k :: 0 <= k < |sent| ==> sent[k].user.id == Ids(sent)[k];
  }

  // ---------------------------------------------------------------- by the fields of the messages

  /** User u stands in that field of message m. */
  ghost predicate InField(m: Message, s: Source, u: User) {
    match s
    case FromMsg => m.from == Some(u)
    case FromFwd => m.forwardFrom == Some(u)
    case FromReply => m.reply.Some? && m.reply.value.from == Some(u)
    case FromReplyFwd => m.reply.Some? && m.reply.value.forwardFrom == Some(u)
    case FromJoin => u in m.newMembers
    case FromMention => exists e :: e in m.entities && e.mention && e.user == Some(u)
  }

  /** The order of the fields. */
  function Rank(s: Source): nat {
    match s
    case FromMsg => 0
    case FromFwd => 1
    case FromReply => 2
    case FromReplyFwd => 3
    case FromJoin => 4
    case FromMention => 5
  }

  lemma {:induction false} JoinsAre(us: seq<User>, x: Sighting)
    ensures x in Joins(us) <==> x.source == FromJoin && x.user in us
  {
    if us != [] {
      JoinsAre(us[1..], x);
      assert us == [us[0]] + us[1..];
    }
  }

  lemma {:induction false} MentionsAre(es: seq<Entity>, x: Sighting)
    ensures x in Mentions(es)
       <==> x.source == FromMention && exists e :: e in es && e.mention && e.user == Some(x.user)
  {
    if es != [] {
      MentionsAre(es[1..], x);
      assert es == [es[0]] + es[1..];
    }
  }

  /** The sightings of a message are the users in its fields. */
  lemma SightingsAreFields(m: Message, x: Sighting)
    ensures x in Sightings(m) <==> InField(m, x.source, x.user)
  {
    JoinsAre(m.newMembers, x);
    MentionsAre(m.entities, x);
    SightIs(m.from, FromMsg, x);
    SightIs(m.forwardFrom, FromFwd, x);
    if m.reply.Some? {
      SightIs(m.reply.value.from, FromReply, x);
      SightIs(m.reply.value.forwardFrom, FromReplyFwd, x);
    }
  }

  lemma SightIs(u: Option<User>, s: Source, x: Sighting)
    ensures x in Sight(u, s) <==> u == Some(x.user) && x.source == s
  {
  }

  ghost predicate Ranked(xs: seq<Sighting>, lo: nat, hi: nat) {
    && (forall i :: 0 <= i < |xs| ==> lo <= Rank(xs[i].source) <= hi)
    && (forall i, j :: 0 <= i < j < |xs| ==> Rank(xs[i].source) <= Rank(xs[j].source))
  }

  lemma RankedConcat(xs: seq<Sighting>, ys: seq<Sighting>, lo: nat, a: nat, b: nat, hi: nat)
    requires Ranked(xs, lo, a) && Ranked(ys, b, hi) && lo <= a <= b <= hi
    ensures Ranked(xs + ys, lo, hi)
  {
  }

  lemma {:induction false} JoinsRanked(us: seq<User>)
    ensures Ranked(Joins(us), 4, 4)
  {
    if us != [] {
      JoinsRanked(us[1..]);
    }
  }

  lemma {:induction false} MentionsRanked(es: seq<Entity>)
    ensures Ranked(Mentions(es), 5, 5)
  {
    if es != [] {
      MentionsRanked(es[1..]);
    }
  }

  lemma SightRanked(u: Option<User>, s: Source)
    ensures Ranked(Sight(u, s), Rank(s), Rank(s))
  {
  }

  lemma RepliedRanked(r: Option<Replied>)
    ensures Ranked(RepliedSightings(r), 2, 3)
  {
    if r.Some? {
      SightRanked(r.value.from, FromReply);
      SightRanked(r.value.forwardFrom, FromReplyFwd);
      RankedConcat(Sight(r.value.from, FromReply), Sight(r.value.forwardFrom, FromReplyFwd), 2, 2, 3, 3);
    }
  }

  /** A message's fields are looked at in their order. */
  lemma SightingsRanked(m: Message)
    ensures Ranked(Sightings(m), 0, 5)
  {
    var a, b, c := Sight(m.from, FromMsg), Sight(m.forwardFrom, FromFwd), RepliedSightings(m.reply);
    SightRanked(m.from, FromMsg);
    SightRanked(m.forwardFrom, FromFwd);
    RepliedRanked(m.reply);
    JoinsRanked(m.newMembers);
    MentionsRanked(m.entities);
    RankedConcat(a, b, 0, 0, 1, 1);
    RankedConcat(a + b, c, 0, 1, 2, 3);
    RankedConcat(a + b + c, Joins(m.newMembers), 0, 3, 4, 4);
    RankedConcat(a + b + c + Joins(m.newMembers), Mentions(m.entities), 0, 4, 5, 5);
  }

  /** Somebody to take: with an id, not known already, no bot and not deleted. */
  predicate Takable(existing: set<int>, u: User) { u.id != 0 && u.id !in existing && !u.bot && !u.deleted }

  /** Some field of m has somebody to take with this id. */
  ghost predicate Holds(existing: set<int>, m: Message, id: int) {
    exists s, u: User :: InField(m, s, u) && u.id == id && Takable(existing, u)
  }

  /** The first field of m that has somebody to take with this id is s. */
  ghost predicate FirstField(existing: set<int>, m: Message, s: Source, id: int) {
    && (exists u: User :: InField(m, s, u) && u.id == id && Takable(existing, u))
    && (forall r, u: User :: Rank(r) < Rank(s) && InField(m, r, u) && u.id == id ==> !Takable(existing, u))
  }

  lemma UsersAreHeld(existing: set<int>, m: Message, id: int)
    ensures id in Users(existing, Sightings(m)) <==> Holds(existing, m, id)
  {
    if id in Users(existing, Sightings(m)) {
      var x :| x in Sightings(m) && Eligible(existing, x.user) && x.user.id == id;
      SightingsAreFields(m, x);
      assert InField(m, x.source, x.user);
    }
    if s, u: User :| InField(m, s, u) && u.id == id && Takable(existing, u) {
      SightingsAreFields(m, Sighting(u, s));
      assert Sighting(u, s) in Sightings(m);
    }
  }

  /** Somebody to take of xs is either seen already or sent now, once, as the first of its user among them. */
  ghost predicate SentNow(h: Harvest, h': Harvest, existing: set<int>, xs: seq<Sighting>) {
    && |h.sent| <= |h'.sent| && h'.sent[..|h.sent|] == h.sent
    && (forall k :: |h.sent| <= k < |h'.sent| ==>
          h'.sent[k].user.id !in h.seen && WasFirst(existing, xs, h'.sent[k]))
    && (forall j, k :: |h.sent| <= j < k < |h'.sent| ==> h'.sent[j].user.id != h'.sent[k].user.id)
    && (forall id :: id in h'.seen && id !in h.seen ==> SentSince(h, h', id))
  }

  ghost predicate SentSince(h: Harvest, h': Harvest, id: int) {
    exists k :: |h.sent| <= k < |h'.sent| && h'.sent[k].user.id == id
  }

  lemma {:induction false} FeedSendsFirsts(h: Harvest, existing: set<int>, xs: seq<Sighting>)
    ensures SentNow(h, Feed(h, existing, xs), existing, xs)
    decreases |xs|
  {
    if xs != [] {
      var g := Take(h, existing, xs[0]);
      FeedSendsFirsts(g, existing, xs[1..]);
      if g == h {
        SentLater(h, Feed(g, existing, xs[1..]), existing, xs);
      } else {
        SentFirst(h, g, Feed(g, existing, xs[1..]), existing, xs);
      }
    }
  }

  lemma WasFirstLater(h: Harvest, existing: set<int>, xs: seq<Sighting>, x: Sighting)
    requires xs != [] && WasFirst(existing, xs[1..], x) && x.user.id !in Take(h, existing, xs[0]).seen
    ensures WasFirst(existing, xs, x) && x.user.id !in h.seen
  {
    var i :| IsFirst(existing, xs[1..], i) && xs[1..][i] == x;
    FirstLater(h, existing, xs, i);
  }

  /** The first sighting sends nothing. */
  lemma SentLater(h: Harvest, h': Harvest, existing: set<int>, xs: seq<Sighting>)
    requires xs != [] && Take(h, existing, xs[0]) == h && SentNow(h, h', existing, xs[1..])
    ensures SentNow(h, h', existing, xs)
  {
    forall k | |h.sent| <= k < |h'.sent| ensures WasFirst(existing, xs, h'.sent[k]) {
      assert WasFirst(existing, xs[1..], h'.sent[k]);
      WasFirstLater(h, existing, xs, h'.sent[k]);
    }
  }

  /** The first sighting is sent. */
  lemma SentFirst(h: Harvest, g: Harvest, h': Harvest, existing: set<int>, xs: seq<Sighting>)
    requires xs != [] && Take(h, existing, xs[0]) == g != h && SentNow(g, h', existing, xs[1..])
    ensures SentNow(h, h', existing, xs)
  {
    var n := |h.sent|;
    assert |g.sent| == n + 1 && g.sent[n] == xs[0];
    assert h'.sent[n] == h'.sent[..n + 1][n] == xs[0];
    assert h'.sent[..n] == h'.sent[..n + 1][..n];
    assert IsFirst(existing, xs, 0);
    forall k | n <= k < |h'.sent| ensures h'.sent[k].user.id !in h.seen && WasFirst(existing, xs, h'.sent[k]) {
      if k > n {
        assert WasFirst(existing, xs[1..], h'.sent[k]);
        WasFirstLater(h, existing, xs, h'.sent[k]);
      }
    }
    forall id | id in h'.seen && id !in h.seen ensures SentSince(h, h', id) {
      if id in g.seen {
        assert h'.sent[n].user.id == id;
      } else {
        assert SentSince(g, h', id);
        var k :| n + 1 <= k < |h'.sent| && h'.sent[k].user.id == id;
      }
    }
  }

  lemma FirstLater(h: Harvest, existing: set<int>, xs: seq<Sighting>, i: int)
    requires xs != [] && IsFirst(existing, xs[1..], i)
    requires xs[1..][i].user.id !in Take(h, existing, xs[0]).seen
    ensures IsFirst(existing, xs, i + 1) && xs[i + 1] == xs[1..][i]
    ensures xs[1..][i].user.id !in h.seen
  {
    forall j | 0 <= j < i + 1 ensures !(Eligible(existing, xs[j].user) && xs[j].user.id == xs[i + 1].user.id) {
      if j > 0 {
        assert xs[j] == xs[1..][j - 1];
      }
    }
  }

  lemma FirstIsFirstField(existing: set<int>, m: Message, i: int)
    requires IsFirst(existing, Sightings(m), i)
    ensures var x := Sightings(m)[i]; FirstField(existing, m, x.source, x.user.id) && InField(m, x.source, x.user)
  {
    var xs := Sightings(m);
    var x := xs[i];
    SightingsAreFields(m, x);
    SightingsRanked(m);
    assert x in xs;
    forall r, u: User | Rank(r) < Rank(x.source) && InField(m, r, u) && u.id == x.user.id
      ensures !Takable(existing, u)
    {
      SightingsAreFields(m, Sighting(u, r));
      var j :| 0 <= j < |xs| && xs[j] == Sighting(u, r);
      assert j < i;
    }
  }

  /**
   * What one message does, said by its fields: exactly the users to take who stand in some field are seen
   * besides those seen before; nothing sent is taken back; each new entry is somebody from the field it is
   * labelled with, the first field that has that user; and each new user is sent once.
   */
  ghost predicate Consumed(h: Harvest, h': Harvest, existing: set<int>, m: Message) {
    && (forall id :: id in h'.seen <==> id in h.seen || Holds(existing, m, id))
    && |h.sent| <= |h'.sent| && h'.sent[..|h.sent|] == h.sent
    && (forall id :: id in h'.seen && id !in h.seen ==> SentSince(h, h', id))
    && (forall j, k :: |h.sent| <= j < k < |h'.sent| ==> h'.sent[j].user.id != h'.sent[k].user.id)
    && (forall k :: |h.sent| <= k < |h'.sent| ==>
          && h'.sent[k].user.id !in h.seen
          && InField(m, h'.sent[k].source, h'.sent[k].user) && Takable(existing, h'.sent[k].user)
          && FirstField(existing, m, h'.sent[k].source, h'.sent[k].user.id))
  }

  lemma MessageIsConsumed(h: Harvest, existing: set<int>, m: Message)
    ensures Consumed(h, Feed(h, existing, Sightings(m)), existing, m)
  {
    var xs := Sightings(m);
    var h' := Feed(h, existing, xs);
    FeedSeesUsers(h, existing, xs);
    FeedSendsFirsts(h, existing, xs);
    forall id ensures id in h'.seen <==> id in h.seen || Holds(existing, m, id) {
      UsersAreHeld(existing, m, id);
    }
    forall k | |h.sent| <= k < |h'.sent|
      ensures && InField(m, h'.sent[k].source, h'.sent[k].user) && Takable(existing, h'.sent[k].user)
              && FirstField(existing, m, h'.sent[k].source, h'.sent[k].user.id)
    {
      var i :| IsFirst(existing, xs, i) && xs[i] == h'.sent[k];
      FirstIsFirstField(existing, m, i);
    }
  }

  // ---------------------------------------------------------------- six passes, each over its own field

  /** What a pass over the messages that looks at one field only finds. */
  ghost predicate FoundInPass(existing: set<int>, ms: seq<Message>, s: Source, id: int) {
    exists m, u: User :: m in ms && InField(m, s, u) && u.id == id && Takable(existing, u)
  }

  lemma {:induction false} AllSightingsAre(ms: seq<Message>, x: Sighting)
    ensures x in AllSightings(ms) <==> exists m :: m in ms && InField(m, x.source, x.user)
  {
    if ms != [] {
      SightingsAreFields(ms[0], x);
      AllSightingsAre(ms[1..], x);
      assert ms == [ms[0]] + ms[1..];
    }
  }

  /**
   * The single pass finds a user exactly if one of the six passes does: over authors, forwarded authors,
   * authors replied to, those they forwarded, new members, and mentions.
   */
  lemma OnePassIsSixFieldPasses(existing: set<int>, ms: seq<Message>, id: int)
    ensures id in FeedAll(NOTHING, existing, ms).seen
       <==> || FoundInPass(existing, ms, FromMsg, id) || FoundInPass(existing, ms, FromFwd, id)
            || FoundInPass(existing, ms, FromReply, id) || FoundInPass(existing, ms, FromReplyFwd, id)
            || FoundInPass(existing, ms, FromJoin, id) || FoundInPass(existing, ms, FromMention, id)
  {
    FeedAllIs(NOTHING, existing, ms);
    FeedSeesUsers(NOTHING, existing, AllSightings(ms));
    UsersArePassed(existing, ms, id);
    if s: Source :| FoundInPass(existing, ms, s, id) {
      match s
      case FromMsg =>
      case FromFwd =>
      case FromReply =>
      case FromReplyFwd =>
      case FromJoin =>
      case FromMention =>
    }
  }

  lemma UsersArePassed(existing: set<int>, ms: seq<Message>, id: int)
    ensures id in Users(existing, AllSightings(ms)) <==> exists s :: FoundInPass(existing, ms, s, id)
  {
    if id in Users(existing, AllSightings(ms)) {
      var x :| x in AllSightings(ms) && Eligible(existing, x.user) && x.user.id == id;
      AllSightingsAre(ms, x);
      assert FoundInPass(existing, ms, x.source, id);
    }
    if s: Source :| FoundInPass(existing, ms, s, id) {
      var m, u: User :| m in ms && InField(m, s, u) && u.id == id && Takable(existing, u);
      AllSightingsAre(ms, Sighting(u, s));
      assert Sighting(u, s) in AllSightings(ms);
    }
  }

  ghost predicate HeldBefore(existing: set<int>, ms: seq<Message>, n: int, id: int) {
    exists j :: 0 <= j < n && j < |ms| && Holds(existing, ms[j], id)
  }

  /** The first message that has somebody to take with that id has it first in the field x is labelled with. */
  ghost predicate LabelledFirst(existing: set<int>, ms: seq<Message>, x: Sighting) {
    exists k :: 0 <= k < |ms| && FirstField(existing, ms[k], x.source, x.user.id)
             && !HeldBefore(existing, ms, k, x.user.id)
  }

  lemma HeldInPrefix(existing: set<int>, ms: seq<Message>, m: Message, n: nat, id: int)
    requires n <= |ms|
    ensures HeldBefore(existing, ms + [m], n, id) <==> HeldBefore(existing, ms, n, id)
  {
    var all := ms + [m];
    assert forall j :: 0 <= j < |ms| ==> all[j] == ms[j];
    if HeldBefore(existing, ms, n, id) {
      var j :| 0 <= j < n && Holds(existing, ms[j], id);
      assert Holds(existing, all[j], id);
    }
  }

  lemma LabelledStays(existing: set<int>, ms: seq<Message>, m: Message, x: Sighting)
    requires LabelledFirst(existing, ms, x)
    ensures LabelledFirst(existing, ms + [m], x)
  {
    var k :| 0 <= k < |ms| && FirstField(existing, ms[k], x.source, x.user.id)
          && !HeldBefore(existing, ms, k, x.user.id);
    assert (ms + [m])[k] == ms[k];
    HeldInPrefix(existing, ms, m, k, x.user.id);
  }

  lemma HeldOneMore(existing: set<int>, ms: seq<Message>, m: Message, id: int)
    ensures HeldBefore(existing, ms + [m], |ms| + 1, id)
       <==> HeldBefore(existing, ms, |ms|, id) || Holds(existing, m, id)
    ensures HeldBefore(existing, ms + [m], |ms|, id) <==> HeldBefore(existing, ms, |ms|, id)
  {
    HeldInPrefix(existing, ms, m, |ms|, id);
    assert (ms + [m])[|ms|] == m;
  }

  /**
   * Over any history, by its messages' fields: a user is seen exactly if some message has it to be taken, and
   * everything sent is labelled with the first such field of the first such message.
   */
  lemma {:induction false} HistoryByFields(existing: set<int>, ms: seq<Message>)
    ensures var h := FeedAll(NOTHING, existing, ms);
            && (forall id :: id in h.seen <==> HeldBefore(existing, ms, |ms|, id))
            && (forall k :: 0 <= k < |h.sent| ==> LabelledFirst(existing, ms, h.sent[k]))
    decreases |ms|
  {
    if ms != [] {
      var front, last := ms[..|ms| - 1], ms[|ms| - 1];
      assert ms == front + [last];
      HistoryByFields(existing, front);
      var h := FeedAll(NOTHING, existing, front);
      FeedAllConcat(NOTHING, existing, front, [last]);
      assert [last][1..] == [];
      assert FeedAll(h, existing, [last]) == Feed(h, existing, Sightings(last));
      MessageIsConsumed(h, existing, last);
      OneMoreByFields(existing, front, last, h, Feed(h, existing, Sightings(last)));
    }
  }

  lemma OneMoreByFields(existing: set<int>, front: seq<Message>, last: Message, h: Harvest, h': Harvest)
    requires forall id :: id in h.seen <==> HeldBefore(existing, front, |front|, id)
    requires forall k :: 0 <= k < |h.sent| ==> LabelledFirst(existing, front, h.sent[k])
    requires Consumed(h, h', existing, last)
    ensures forall id :: id in h'.seen <==> HeldBefore(existing, front + [last], |front| + 1, id)
    ensures forall k :: 0 <= k < |h'.sent| ==> LabelledFirst(existing, front + [last], h'.sent[k])
  {
    forall id ensures id in h'.seen <==> HeldBefore(existing, front + [last], |front| + 1, id) {
      HeldOneMore(existing, front, last, id);
    }
    forall k | 0 <= k < |h'.sent| ensures LabelledFirst(existing, front + [last], h'.sent[k]) {
      var x := h'.sent[k];
      if k < |h.sent| {
        assert h'.sent[..|h.sent|][k] == x;
        LabelledStays(existing, front, last, x);
      } else {
        HeldOneMore(existing, front, last, x.user.id);
        assert (front + [last])[|front|] == last;
      }
    }
  }

  // ---------------------------------------------------------------- reading again

  /** Feeding sightings of users already seen changes nothing. */
  lemma {:induction false} FeedAgain(h: Harvest, existing: set<int>, xs: seq<Sighting>)
    requires Users(existing, xs) <= h.seen
    ensures Feed(h, existing, xs) == h
    decreases |xs|
  {
    if xs != [] {
      UsersSplit(existing, xs);
      FeedAgain(h, existing, xs[1..]);
    }
  }

  lemma {:induction false} AllSightingsConcat(ms: seq<Message>, ns: seq<Message>)
    ensures AllSightings(ms + ns) == AllSightings(ms) + AllSightings(ns)
  {
    if ms == [] {
      assert ms + ns == ns;
    } else {
      assert (ms + ns)[1..] == ms[1..] + ns;
      AllSightingsConcat(ms[1..], ns);
    }
  }

  /** The harvest after reading ms, message by message. */
  function FeedAll(h: Harvest, existing: set<int>, ms: seq<Message>): Harvest
    decreases |ms|
  {
    if ms == [] then h else FeedAll(Feed(h, existing, Sightings(ms[0])), existing, ms[1..])
  }

  lemma {:induction false} FeedAllIs(h: Harvest, existing: set<int>, ms: seq<Message>)
    ensures FeedAll(h, existing, ms) == Feed(h, existing, AllSightings(ms))
    decreases |ms|
  {
    if ms != [] {
      FeedConcat(h, existing, Sightings(ms[0]), AllSightings(ms[1..]));
      FeedAllIs(Feed(h, existing, Sightings(ms[0])), existing, ms[1..]);
    }
  }

  lemma FeedAllConcat(h: Harvest, existing: set<int>, ms: seq<Message>, ns: seq<Message>)
    ensures FeedAll(h, existing, ms + ns) == FeedAll(FeedAll(h, existing, ms), existing, ns)
  {
    FeedAllIs(h, existing, ms + ns);
    FeedAllIs(h, existing, ms);
    FeedAllIs(FeedAll(h, existing, ms), existing, ns);
    AllSightingsConcat(ms, ns);
    FeedConcat(h, existing, AllSightings(ms), AllSightings(ns));
  }

  lemma SliceUsers(existing: set<int>, ms: seq<Message>, a: nat, d: nat, b: nat)
    requires a <= d <= b <= |ms|
    ensures Users(existing, AllSightings(ms[a..d])) <= Users(existing, AllSightings(ms[..b]))
  {
    assert ms[..b] == ms[..a] + (ms[a..d] + ms[d..b]);
    AllSightingsConcat(ms[..a], ms[a..d] + ms[d..b]);
    AllSightingsConcat(ms[a..d], ms[d..b]);
  }

  lemma RereadInside(h: Harvest, existing: set<int>, ms: seq<Message>, a: nat, d: nat, b: nat)
    requires a <= d <= b <= |ms|
    ensures FeedAll(FeedAll(h, existing, ms[..b]), existing, ms[a..d]) == FeedAll(h, existing, ms[..b])
  {
    FeedAllIs(h, existing, ms[..b]);
    FeedAllIs(FeedAll(h, existing, ms[..b]), existing, ms[a..d]);
    SliceUsers(existing, ms, a, d, b);
    FeedSeesUsers(h, existing, AllSightings(ms[..b]));
    FeedAgain(FeedAll(h, existing, ms[..b]), existing, AllSightings(ms[a..d]));
  }

  lemma ReadOn(h: Harvest, existing: set<int>, ms: seq<Message>, a: nat, b: nat, c: nat)
    requires a <= b <= c <= |ms|
    ensures FeedAll(h, existing, ms[a..c]) == FeedAll(FeedAll(h, existing, ms[a..b]), existing, ms[b..c])
  {
    assert ms[a..c] == ms[a..b] + ms[b..c];
    FeedAllConcat(h, existing, ms[a..b], ms[b..c]);
  }

  /**
   * Reading on from position a after having read up to b >= a, as a retry does, leads to the same
   * harvest as reading straight to wherever the reading got: the overlap has no effect.
   */
  lemma RereadIsHarmless(h: Harvest, existing: set<int>, ms: seq<Message>, a: nat, b: nat, c: nat)
    requires a <= b <= |ms| && a <= c <= |ms|
    ensures FeedAll(FeedAll(h, existing, ms[..b]), existing, ms[a..c])
         == FeedAll(h, existing, ms[..if c > b then c else b])
  {
    if c <= b {
      RereadInside(h, existing, ms, a, c, b);
    } else {
      RereadInside(h, existing, ms, a, b, b);
      ReadOn(FeedAll(h, existing, ms[..b]), existing, ms, a, b, c);
      ReadOn(h, existing, ms, 0, b, c);
      assert ms[0..c] == ms[..c] && ms[0..b] == ms[..b];
    }
  }
}
