/** The batched pre-filter of add_engine.py, which asks Telegram about candidates before any is invited. */
module Prefilter {
  import opened Common

  /** A candidate; uid is 0 when the row has no usable id.  row stands for the rest of it. */
  datatype Member = Member(uid: int, row: nat)

  datatype User = User(deleted: bool, bot: bool, self: bool, scam: bool, fake: bool, status: string)

  datatype Reason = InBlockList | NotFound | Deleted | Bot | Self | Scam | Hidden | Abandoned

  /** How one batch lookup goes. */
  datatype Reply = Found(users: map<int, User>) | Flood | Failed

  /** What becomes of a candidate; a dropped one remembers which lookup decided it. */
  datatype Fate = Keep | Blocked | Drop(reason: Reason, lookup: nat)

  const BATCH: nat := 100

  const HIDDEN_STATUSES := {"recently", "last_week", "lastweek", "last_month", "lastmonth"}
  const STALE_STATUSES := {"long_ago", "longago", "empty"}

  /** _is_unaddable_user, for a user the server knows. */
  function Unaddable(u: User, strict: bool): Option<Reason> {
    if u.deleted then Some(Deleted)
    else if u.bot then Some(Bot)
    else if u.self then Some(Self)
    else if !strict then None
    else if u.scam || u.fake then Some(Scam)
    else if u.status in HIDDEN_STATUSES then Some(Hidden)
    else if u.status in STALE_STATUSES then Some(Abandoned)
    else None
  }

  predicate IsBlocked(m: Member, blocked: set<int>) { m.uid != 0 && m.uid in blocked }

  function Staged(members: seq<Member>, blocked: set<int>): seq<Member> {
    if members == [] then []
    else (if IsBlocked(members[0], blocked) then [] else [members[0]]) + Staged(members[1..], blocked)
  }

  /** The ids a batch asks about. */
  function Ids(chunk: seq<Member>): seq<int> {
    if chunk == [] then [] else (if chunk[0].uid != 0 then [chunk[0].uid] else []) + Ids(chunk[1..])
  }

  /** The verdict on a member whose batch lookup, number k, succeeded. */
  function Verdict(m: Member, users: map<int, User>, strict: bool, k: nat): Fate {
    if m.uid == 0 || m.uid !in users then Drop(NotFound, k)
    else match Unaddable(users[m.uid], strict)
         case Some(r) => Drop(r, k)
         case None => Keep
  }

  function Verdicts(chunk: seq<Member>, users: map<int, User>, strict: bool, k: nat): (r: seq<Fate>)
    ensures |r| == |chunk|
  {
    if chunk == [] then [] else [Verdict(chunk[0], users, strict, k)] + Verdicts(chunk[1..], users, strict, k)
  }

  /** How many members the next batch has. */
  function BatchSize(n: nat): nat { if n < BATCH then n else BATCH }

  function AllKept(n: nat): seq<Fate> { seq(n, _ => Keep) }

  /** The fates of the staged members, the ids of each lookup made, the errors met, and whether it gave up. */
  datatype Screening = Screening(fates: seq<Fate>, asked: seq<seq<int>>, errors: nat, aborted: bool)

  /**
   * The screening of staged when k lookups have been made, the last errs of which failed in a row.  A
   * batch without ids asks nothing.  A flood gives up at once, other failures after three in a row.
   */
  function Screen(staged: seq<Member>, strict: bool, replies: nat -> Reply, k: nat, errs: nat): (r: Screening)
    ensures |r.fates| == |staged|
    decreases |staged|
  {
    if staged == [] then Screening([], [], 0, false)
    else
      var n := BatchSize(|staged|);
      var chunk, rest := staged[..n], staged[n..];
      var ids := Ids(chunk);
      if ids == [] then Before(AllKept(n), [], 0, Screen(rest, strict, replies, k, errs))
      else
        match replies(k)
        case Found(users) => Before(Verdicts(chunk, users, strict, k), [ids], 0,
                                    Screen(rest, strict, replies, k + 1, 0))
        case Flood => Screening(AllKept(|staged|), [ids], 1, true)
        case Failed =>
          if errs + 1 >= 3 then Screening(AllKept(|staged|), [ids], 1, true)
          else Before(AllKept(n), [ids], 1, Screen(rest, strict, replies, k + 1, errs + 1))
  }

  /** One batch's fates, lookup and error, ahead of the screening of the rest. */
  function Before(fates: seq<Fate>, ids: seq<seq<int>>, errors: nat, s: Screening): Screening {
    Screening(fates + s.fates, ids + s.asked, errors + s.errors, s.aborted)
  }

  lemma ScreenUnfolds(rest: seq<Member>, strict: bool, replies: nat -> Reply, k: nat, errs: nat)
    requires rest != []
    ensures var n := BatchSize(|rest|);
            var chunk, later := rest[..n], rest[n..];
            var ids := Ids(chunk);
            Screen(rest, strict, replies, k, errs) ==
              if ids == [] then Before(AllKept(n), [], 0, Screen(later, strict, replies, k, errs))
              else if replies(k).Found? then
                Before(Verdicts(chunk, replies(k).users, strict, k), [ids], 0, Screen(later, strict, replies, k + 1, 0))
              else if replies(k).Failed? && errs + 1 < 3 then
                Before(AllKept(n), [ids], 1, Screen(later, strict, replies, k + 1, errs + 1))
              else Screening(AllKept(|rest|), [ids], 1, true)
  {
  }

  /** The fates of all members: the blocked ones, and the staged ones as screened. */
  function Whole(members: seq<Member>, blocked: set<int>, fates: seq<Fate>): (r: seq<Fate>)
    requires |fates| == |Staged(members, blocked)|
    ensures |r| == |members|
  {
    if members == [] then []
    else if IsBlocked(members[0], blocked) then [Blocked] + Whole(members[1..], blocked, fates)
    else [fates[0]] + Whole(members[1..], blocked, fates[1..])
  }

  /** The members that are kept, in their order. */
  function Select(members: seq<Member>, fates: seq<Fate>): seq<Member>
    requires |fates| == |members|
  {
    if members == [] then [] else (if fates[0].Keep? then [members[0]] else []) + Select(members[1..], fates[1..])
  }

  function DroppedOne(f: Fate): int { if f.Keep? then 0 else 1 }

  function ReasonOf(f: Fate): Reason
    requires !f.Keep?
  {
    if f.Blocked? then InBlockList else f.reason
  }

  // ---------------------------------------------------------------- when it gives up

  /** How many lookups have just failed in a row when j more are done after number k, with errs before them. */
  function Streak(replies: nat -> Reply, k: nat, errs: nat, j: nat): nat {
    if j == 0 then errs
    else if replies(k + j - 1).Failed? then Streak(replies, k, errs, j - 1) + 1
    else 0
  }

  /** Lookup k + j is a flood, or the third failure in a row. */
  predicate GivesUp(replies: nat -> Reply, k: nat, errs: nat, j: nat) {
    replies(k + j).Flood? || (replies(k + j).Failed? && Streak(replies, k, errs, j + 1) >= 3)
  }

  function Flatten(xs: seq<seq<int>>): seq<int> {
    if xs == [] then [] else xs[0] + Flatten(xs[1..])
  }

  lemma {:induction false} StreakMovesOn(replies: nat -> Reply, k: nat, errs: nat, j: nat)
    ensures Streak(replies, k + 1, Streak(replies, k, errs, 1), j) == Streak(replies, k, errs, j + 1)
  {
    if j != 0 {
      StreakMovesOn(replies, k, errs, j - 1);
    }
  }

  lemma GivingUpMovesOn(replies: nat -> Reply, k: nat, errs: nat, j: nat)
    ensures GivesUp(replies, k, errs, j + 1) == GivesUp(replies, k + 1, Streak(replies, k, errs, 1), j)
  {
    StreakMovesOn(replies, k, errs, j + 1);
  }

  ghost predicate StopsRight(s: Screening, replies: nat -> Reply, k: nat, errs: nat) {
    && (s.aborted <==> s.asked != [] && GivesUp(replies, k, errs, |s.asked| - 1))
    && (forall j :: 0 <= j < |s.asked| - 1 ==> !GivesUp(replies, k, errs, j))
  }

  /** One lookup that is not the last, ahead of a screening that stops where it should. */
  lemma StopsOneLater(fates: seq<Fate>, ids: seq<int>, e: nat, s: Screening, replies: nat -> Reply, k: nat, errs: nat)
    requires !GivesUp(replies, k, errs, 0)
    requires StopsRight(s, replies, k + 1, Streak(replies, k, errs, 1))
    ensures StopsRight(Before(fates, [ids], e, s), replies, k, errs)
  {
    var t := Before(fates, [ids], e, s);
    forall j | 0 <= j < |t.asked| - 1 ensures !GivesUp(replies, k, errs, j) {
      if j > 0 {
        GivingUpMovesOn(replies, k, errs, j - 1);
      }
    }
    if s.asked != [] {
      GivingUpMovesOn(replies, k, errs, |s.asked| - 1);
    }
  }

  /**
   * Exactly when the screening gives up: its last lookup was a flood or the third failure in a row, and
   * no lookup before it was either.
   */
  lemma {:induction false} ScreenStopsExactly(staged: seq<Member>, strict: bool, replies: nat -> Reply, k: nat,
                                              errs: nat)
    ensures StopsRight(Screen(staged, strict, replies, k, errs), replies, k, errs)
    decreases |staged|
  {
    if staged != [] {
      ScreenUnfolds(staged, strict, replies, k, errs);
      var n := BatchSize(|staged|);
      var ids := Ids(staged[..n]);
      assert Streak(replies, k, errs, 0) == errs;
      if ids == [] {
        ScreenStopsExactly(staged[n..], strict, replies, k, errs);
      } else if replies(k).Found? {
        ScreenStopsExactly(staged[n..], strict, replies, k + 1, 0);
        StopsOneLater(Verdicts(staged[..n], replies(k).users, strict, k), ids, 0,
                      Screen(staged[n..], strict, replies, k + 1, 0), replies, k, errs);
      } else if replies(k).Failed? && errs + 1 < 3 {
        ScreenStopsExactly(staged[n..], strict, replies, k + 1, errs + 1);
        StopsOneLater(AllKept(n), ids, 1, Screen(staged[n..], strict, replies, k + 1, errs + 1), replies, k, errs);
      }
    }
  }

  lemma {:induction false} IdsConcat(a: seq<Member>, b: seq<Member>)
    ensures Ids(a + b) == Ids(a) + Ids(b)
  {
    if a == [] {
      assert a + b == b;
    } else {
      assert (a + b)[1..] == a[1..] + b;
      IdsConcat(a[1..], b);
    }
  }

  lemma IdsSplit(staged: seq<Member>, n: nat)
    requires n <= |staged|
    ensures Ids(staged) == Ids(staged[..n]) + Ids(staged[n..])
  {
    assert staged == staged[..n] + staged[n..];
    IdsConcat(staged[..n], staged[n..]);
  }

  lemma FlattenOne(ids: seq<int>, asked: seq<seq<int>>)
    ensures Flatten([ids] + asked) == ids + Flatten(asked)
  {
    assert ([ids] + asked)[1..] == asked;
  }

  /** The lookups ask about the members' ids in order, each once, and about all of them unless it gives up. */
  lemma {:induction false} EveryIdIsAsked(staged: seq<Member>, strict: bool, replies: nat -> Reply, k: nat, errs: nat)
    ensures var s := Screen(staged, strict, replies, k, errs);
            Flatten(s.asked) <= Ids(staged) && (!s.aborted ==> Flatten(s.asked) == Ids(staged))
    decreases |staged|
  {
    if staged != [] {
      ScreenUnfolds(staged, strict, replies, k, errs);
      var n := BatchSize(|staged|);
      var ids := Ids(staged[..n]);
      IdsSplit(staged, n);
      if ids == [] {
        EveryIdIsAsked(staged[n..], strict, replies, k, errs);
        assert [] + Screen(staged[n..], strict, replies, k, errs).asked
            == Screen(staged[n..], strict, replies, k, errs).asked;
      } else if replies(k).Found? {
        EveryIdIsAsked(staged[n..], strict, replies, k + 1, 0);
        FlattenOne(ids, Screen(staged[n..], strict, replies, k + 1, 0).asked);
      } else if replies(k).Failed? && errs + 1 < 3 {
        EveryIdIsAsked(staged[n..], strict, replies, k + 1, errs + 1);
        FlattenOne(ids, Screen(staged[n..], strict, replies, k + 1, errs + 1).asked);
      } else {
        FlattenOne(ids, []);
        assert [ids] + [] == [ids];
      }
    }
  }

  // ---------------------------------------------------------------- everybody's fate

  lemma {:induction false} VerdictsAre(chunk: seq<Member>, users: map<int, User>, strict: bool, k: nat)
    ensures forall i :: 0 <= i < |chunk| ==> Verdicts(chunk, users, strict, k)[i] == Verdict(chunk[i], users, strict, k)
  {
    if chunk != [] {
      VerdictsAre(chunk[1..], users, strict, k);
    }
  }

  lemma {:induction false} IdsOf(chunk: seq<Member>)
    ensures forall i :: 0 <= i < |chunk| && chunk[i].uid != 0 ==> chunk[i].uid in Ids(chunk)
    ensures 0 !in Ids(chunk)
  {
    if chunk != [] {
      IdsOf(chunk[1..]);
    }
  }

  /** The ids in the batch of staged member i. */
  function OwnIds(staged: seq<Member>, i: nat): seq<int>
    requires i < |staged|
    decreases |staged|
  {
    var n := BatchSize(|staged|);
    if i < n then Ids(staged[..n]) else OwnIds(staged[n..], i - n)
  }

  /** How many lookups come before that of the batch of staged member i: one for each earlier batch with ids. */
  function OwnLookup(staged: seq<Member>, i: nat): nat
    requires i < |staged|
    decreases |staged|
  {
    var n := BatchSize(|staged|);
    if i < n then 0 else (if Ids(staged[..n]) == [] then 0 else 1) + OwnLookup(staged[n..], i - n)
  }

  lemma SliceOfRest(staged: seq<Member>, n: nat, lo: nat, hi: nat)
    requires n <= lo <= hi <= |staged|
    ensures staged[n..][lo - n..hi - n] == staged[lo..hi]
  {
  }

  /** Batches are of a hundred members each, counted from the first. */
  lemma {:induction false} OwnIdsAre(staged: seq<Member>, i: nat)
    requires i < |staged|
    ensures var lo := i / 100 * 100;
            OwnIds(staged, i) == Ids(staged[lo..if lo + 100 < |staged| then lo + 100 else |staged|])
    decreases |staged|
  {
    var n := BatchSize(|staged|);
    if i >= n {
      OwnIdsAre(staged[n..], i - n);
      assert n == BATCH && i / BATCH == (i - n) / BATCH + 1;
      var lo := i / BATCH * BATCH;
      assert n <= lo <= i;
      SliceOfRest(staged, n, lo, if lo + BATCH < |staged| then lo + BATCH else |staged|);
    }
  }

  /** No lookup before the own one gives up. */
  ghost predicate Reached(staged: seq<Member>, i: nat, replies: nat -> Reply, k: nat, errs: nat)
    requires i < |staged|
  {
    forall j :: 0 <= j < OwnLookup(staged, i) ==> !GivesUp(replies, k, errs, j)
  }

  /** The answer to the own lookup decides, if there is one; otherwise the member is kept. */
  ghost function FateOf(staged: seq<Member>, i: nat, strict: bool, replies: nat -> Reply, k: nat, errs: nat): Fate
    requires i < |staged|
  {
    var l := k + OwnLookup(staged, i);
    if OwnIds(staged, i) != [] && Reached(staged, i, replies, k, errs) && replies(l).Found?
    then Verdict(staged[i], replies(l).users, strict, l)
    else Keep
  }

  lemma ReachedLater(staged: seq<Member>, i: nat, replies: nat -> Reply, k: nat, errs: nat)
    requires BatchSize(|staged|) <= i < |staged| && Ids(staged[..BatchSize(|staged|)]) != []
    ensures var n := BatchSize(|staged|);
            Reached(staged, i, replies, k, errs)
            <==> && !GivesUp(replies, k, errs, 0)
                 && Reached(staged[n..], i - n, replies, k + 1, Streak(replies, k, errs, 1))
  {
    var n := BatchSize(|staged|);
    var later := OwnLookup(staged[n..], i - n);
    var k', errs' := k + 1, Streak(replies, k, errs, 1);
    assert OwnLookup(staged, i) == later + 1;
    if Reached(staged, i, replies, k, errs) {
      forall j: nat | j < later ensures !GivesUp(replies, k', errs', j) {
        GivingUpMovesOn(replies, k, errs, j);
      }
    }
    if !GivesUp(replies, k, errs, 0) && Reached(staged[n..], i - n, replies, k + 1, Streak(replies, k, errs, 1)) {
      forall j | 0 <= j < later + 1 ensures !GivesUp(replies, k, errs, j) {
        if j > 0 {
          GivingUpMovesOn(replies, k, errs, j - 1);
        }
      }
    }
  }

  /** The fate of a member of a later batch is its fate in the screening of the rest. */
  lemma FateLater(staged: seq<Member>, i: nat, strict: bool, replies: nat -> Reply, k: nat, errs: nat)
    requires BatchSize(|staged|) <= i < |staged|
    ensures var n := BatchSize(|staged|);
            FateOf(staged, i, strict, replies, k, errs)
            == if Ids(staged[..n]) == [] then FateOf(staged[n..], i - n, strict, replies, k, errs)
               else if GivesUp(replies, k, errs, 0) then Keep
               else FateOf(staged[n..], i - n, strict, replies, k + 1, Streak(replies, k, errs, 1))
  {
    var n := BatchSize(|staged|);
    if Ids(staged[..n]) != [] {
      ReachedLater(staged, i, replies, k, errs);
    }
  }

  lemma FateInHead(staged: seq<Member>, i: nat, strict: bool, replies: nat -> Reply, k: nat, errs: nat)
    requires i < BatchSize(|staged|)
    ensures Screen(staged, strict, replies, k, errs).fates[i] == FateOf(staged, i, strict, replies, k, errs)
  {
    var n := BatchSize(|staged|);
    ScreenUnfolds(staged, strict, replies, k, errs);
    assert OwnLookup(staged, i) == 0;
    if replies(k).Found? {
      VerdictsAre(staged[..n], replies(k).users, strict, k);
      assert staged[..n][i] == staged[i];
    }
  }

  lemma FirstLookup(replies: nat -> Reply, k: nat, errs: nat)
    ensures Streak(replies, k, errs, 1) == if replies(k).Failed? then errs + 1 else 0
    ensures GivesUp(replies, k, errs, 0) <==> replies(k).Flood? || (replies(k).Failed? && errs + 1 >= 3)
  {
    assert Streak(replies, k, errs, 0) == errs;
  }

  /** The fates: those of the first batch, and those of the rest. */
  lemma FatesFrom(staged: seq<Member>, strict: bool, replies: nat -> Reply, k: nat, errs: nat)
    requires staged != []
    ensures var n := BatchSize(|staged|);
            var fates := Screen(staged, strict, replies, k, errs).fates;
            if Ids(staged[..n]) == [] then fates == AllKept(n) + Screen(staged[n..], strict, replies, k, errs).fates
            else if GivesUp(replies, k, errs, 0) then fates == AllKept(|staged|)
            else fates == (if replies(k).Found? then Verdicts(staged[..n], replies(k).users, strict, k) else AllKept(n))
                          + Screen(staged[n..], strict, replies, k + 1, Streak(replies, k, errs, 1)).fates
  {
    ScreenUnfolds(staged, strict, replies, k, errs);
    FirstLookup(replies, k, errs);
  }

  lemma FatesLater(staged: seq<Member>, strict: bool, replies: nat -> Reply, k: nat, errs: nat, i: nat)
    requires BatchSize(|staged|) <= i < |staged|
    ensures var n := BatchSize(|staged|);
            Screen(staged, strict, replies, k, errs).fates[i]
            == if Ids(staged[..n]) == [] then Screen(staged[n..], strict, replies, k, errs).fates[i - n]
               else if GivesUp(replies, k, errs, 0) then Keep
               else Screen(staged[n..], strict, replies, k + 1, Streak(replies, k, errs, 1)).fates[i - n]
  {
    FatesFrom(staged, strict, replies, k, errs);
    var n := BatchSize(|staged|);
    if Ids(staged[..n]) != [] && !GivesUp(replies, k, errs, 0) {
      var head := if replies(k).Found? then Verdicts(staged[..n], replies(k).users, strict, k) else AllKept(n);
      assert |head| == n;
    }
  }

  /**
   * What becomes of every staged member, exactly: the answer to the lookup of its own batch decides, if the
   * batch has an id to ask about, no earlier lookup gave up, and that lookup succeeds; otherwise it is kept.
   */
  lemma {:induction false} ScreenFates(staged: seq<Member>, strict: bool, replies: nat -> Reply, k: nat, errs: nat,
                                       i: nat)
    requires i < |staged|
    ensures Screen(staged, strict, replies, k, errs).fates[i] == FateOf(staged, i, strict, replies, k, errs)
    decreases |staged|
  {
    var n := BatchSize(|staged|);
    if i < n {
      FateInHead(staged, i, strict, replies, k, errs);
    } else {
      FatesLater(staged, strict, replies, k, errs, i);
      FateLater(staged, i, strict, replies, k, errs);
      if Ids(staged[..n]) == [] {
        ScreenFates(staged[n..], strict, replies, k, errs, i - n);
      } else if !GivesUp(replies, k, errs, 0) {
        ScreenFates(staged[n..], strict, replies, k + 1, Streak(replies, k, errs, 1), i - n);
      }
    }
  }

  /** The lookups made: that of the first batch, if it has ids, and those for the rest. */
  lemma AskedFrom(staged: seq<Member>, strict: bool, replies: nat -> Reply, k: nat, errs: nat)
    requires staged != []
    ensures var n := BatchSize(|staged|);
            var ids := Ids(staged[..n]);
            Screen(staged, strict, replies, k, errs).asked
            == if ids == [] then Screen(staged[n..], strict, replies, k, errs).asked
               else if GivesUp(replies, k, errs, 0) then [ids]
               else [ids] + Screen(staged[n..], strict, replies, k + 1, Streak(replies, k, errs, 1)).asked
  {
    var n := BatchSize(|staged|);
    ScreenUnfolds(staged, strict, replies, k, errs);
    FirstLookup(replies, k, errs);
    if Ids(staged[..n]) == [] {
      assert [] + Screen(staged[n..], strict, replies, k, errs).asked
          == Screen(staged[n..], strict, replies, k, errs).asked;
    }
  }

  /** Of the lookups asked, number l asks for the batch of staged member i, and is made exactly when reached. */
  ghost predicate AskedAsReached(staged: seq<Member>, i: nat, asked: seq<seq<int>>, replies: nat -> Reply, k: nat,
                                 errs: nat)
    requires i < |staged|
  {
    var l := OwnLookup(staged, i);
    (Reached(staged, i, replies, k, errs) <==> l < |asked|) && (l < |asked| ==> asked[l] == OwnIds(staged, i))
  }

  lemma AskedLater(staged: seq<Member>, i: nat, asked: seq<seq<int>>, replies: nat -> Reply, k: nat, errs: nat)
    requires BatchSize(|staged|) <= i < |staged| && Ids(staged[..BatchSize(|staged|)]) != []
    requires !GivesUp(replies, k, errs, 0)
    requires var n := BatchSize(|staged|);
             AskedAsReached(staged[n..], i - n, asked, replies, k + 1, Streak(replies, k, errs, 1))
    ensures AskedAsReached(staged, i, [Ids(staged[..BatchSize(|staged|)])] + asked, replies, k, errs)
  {
    ReachedLater(staged, i, replies, k, errs);
  }

  /** A member's own lookup is made, and asks about its whole batch, exactly when no earlier one gives up. */
  lemma {:induction false} OwnLookupIsAsked(staged: seq<Member>, strict: bool, replies: nat -> Reply, k: nat, errs: nat,
                                            i: nat)
    requires i < |staged| && OwnIds(staged, i) != []
    ensures AskedAsReached(staged, i, Screen(staged, strict, replies, k, errs).asked, replies, k, errs)
    decreases |staged|
  {
    var n := BatchSize(|staged|);
    AskedFrom(staged, strict, replies, k, errs);
    if i >= n {
      if Ids(staged[..n]) == [] {
        OwnLookupIsAsked(staged[n..], strict, replies, k, errs, i - n);
      } else if GivesUp(replies, k, errs, 0) {
        ReachedLater(staged, i, replies, k, errs);
      } else {
        OwnLookupIsAsked(staged[n..], strict, replies, k + 1, Streak(replies, k, errs, 1), i - n);
        AskedLater(staged, i, Screen(staged[n..], strict, replies, k + 1, Streak(replies, k, errs, 1)).asked,
                   replies, k, errs);
      }
    }
  }

  lemma {:induction false} OwnIdsHave(staged: seq<Member>, i: nat)
    requires i < |staged|
    ensures staged[i].uid != 0 ==> staged[i].uid in OwnIds(staged, i)
    ensures 0 !in OwnIds(staged, i)
    decreases |staged|
  {
    var n := BatchSize(|staged|);
    if i < n {
      IdsOf(staged[..n]);
      assert staged[..n][i] == staged[i];
    } else {
      OwnIdsHave(staged[n..], i - n);
    }
  }

  /** A member is dropped only if the lookup of its own batch was made, succeeded and spoke against it. */
  ghost predicate Justified(staged: seq<Member>, i: nat, f: Fate, asked: seq<seq<int>>, strict: bool,
                            replies: nat -> Reply)
    requires i < |staged|
  {
    f.Drop? ==>
      var l := OwnLookup(staged, i);
      && l < |asked| && asked[l] == OwnIds(staged, i) != []
      && (staged[i].uid != 0 ==> staged[i].uid in asked[l])
      && replies(l).Found? && f == Verdict(staged[i], replies(l).users, strict, l)
  }

  lemma FateIsJustified(staged: seq<Member>, strict: bool, replies: nat -> Reply, i: nat)
    requires i < |staged|
    ensures var s := Screen(staged, strict, replies, 0, 0);
            !s.fates[i].Blocked? && Justified(staged, i, s.fates[i], s.asked, strict, replies)
  {
    ScreenFates(staged, strict, replies, 0, 0, i);
    OwnIdsHave(staged, i);
    if OwnIds(staged, i) != [] {
      OwnLookupIsAsked(staged, strict, replies, 0, 0, i);
    }
  }

  /** The number of batches of n members. */
  function Batches(n: nat): nat { (n + BATCH - 1) / BATCH }

  lemma {:induction false} FewLookups(staged: seq<Member>, strict: bool, replies: nat -> Reply, k: nat, errs: nat)
    ensures |Screen(staged, strict, replies, k, errs).asked| <= Batches(|staged|)
    decreases |staged|
  {
    if staged != [] {
      var n := BatchSize(|staged|);
      FewLookups(staged[n..], strict, replies, k, errs);
      FewLookups(staged[n..], strict, replies, k + 1, 0);
      FewLookups(staged[n..], strict, replies, k + 1, errs + 1);
    }
  }

  lemma {:induction false} StagedIsShorter(members: seq<Member>, blocked: set<int>)
    ensures |Staged(members, blocked)| <= |members|
  {
    if members != [] {
      StagedIsShorter(members[1..], blocked);
    }
  }

  /** Where the first member not blocked from i on stands among the staged ones. */
  function Position(members: seq<Member>, blocked: set<int>, i: nat): nat
    requires i <= |members|
  {
    if i == 0 then 0
    else (if IsBlocked(members[0], blocked) then 0 else 1) + Position(members[1..], blocked, i - 1)
  }

  lemma {:induction false} WholeFate(members: seq<Member>, blocked: set<int>, fates: seq<Fate>, i: nat)
    requires |fates| == |Staged(members, blocked)| && i < |members|
    ensures IsBlocked(members[i], blocked) ==> Whole(members, blocked, fates)[i] == Blocked
    ensures !IsBlocked(members[i], blocked) ==>
              var p := Position(members, blocked, i);
              p < |fates| && Staged(members, blocked)[p] == members[i] && Whole(members, blocked, fates)[i] == fates[p]
  {
    if i > 0 {
      WholeFate(members[1..], blocked, if IsBlocked(members[0], blocked) then fates else fates[1..], i - 1);
    }
  }

  /** The screening of a whole list. */
  function Fates(members: seq<Member>, blocked: set<int>, strict: bool, replies: nat -> Reply): (r: seq<Fate>)
    ensures |r| == |members|
  {
    Whole(members, blocked, Screen(Staged(members, blocked), strict, replies, 0, 0).fates)
  }

  /**
   * The pre-filter is conservative, whatever the lookups answer and however it ends: the blocked members
   * are set aside; of the others each gets exactly the fate that the lookup of its own batch gives it, and
   * is dropped only if that lookup was made, succeeded and spoke against it; and there is at most one
   * lookup per hundred members.
   */
  lemma PrefilterIsConservative(members: seq<Member>, blocked: set<int>, strict: bool, replies: nat -> Reply)
    ensures |Screen(Staged(members, blocked), strict, replies, 0, 0).asked| <= Batches(|members|)
    ensures var w := Fates(members, blocked, strict, replies);
            var staged := Staged(members, blocked);
            var asked := Screen(staged, strict, replies, 0, 0).asked;
            forall i :: 0 <= i < |members| ==>
              && (w[i].Blocked? <==> IsBlocked(members[i], blocked))
              && (!IsBlocked(members[i], blocked) ==>
                    var p := Position(members, blocked, i);
                    && p < |staged| && staged[p] == members[i]
                    && w[i] == FateOf(staged, p, strict, replies, 0, 0)
                    && Justified(staged, p, w[i], asked, strict, replies))
  {
    var staged := Staged(members, blocked);
    FewLookups(staged, strict, replies, 0, 0);
    StagedIsShorter(members, blocked);
    forall i | 0 <= i < |members|
      ensures var w := Fates(members, blocked, strict, replies);
              && (w[i].Blocked? <==> IsBlocked(members[i], blocked))
              && (!IsBlocked(members[i], blocked) ==>
                    var p := Position(members, blocked, i);
                    && p < |staged| && staged[p] == members[i]
                    && w[i] == FateOf(staged, p, strict, replies, 0, 0)
                    && Justified(staged, p, w[i], Screen(staged, strict, replies, 0, 0).asked, strict, replies))
    {
      MemberFate(members, blocked, strict, replies, i);
    }
  }

  lemma MemberFate(members: seq<Member>, blocked: set<int>, strict: bool, replies: nat -> Reply, i: nat)
    requires i < |members|
    ensures var w, staged := Fates(members, blocked, strict, replies), Staged(members, blocked);
            && (w[i].Blocked? <==> IsBlocked(members[i], blocked))
            && (!IsBlocked(members[i], blocked) ==>
                  var p := Position(members, blocked, i);
                  && p < |staged| && staged[p] == members[i]
                  && w[i] == FateOf(staged, p, strict, replies, 0, 0)
                  && Justified(staged, p, w[i], Screen(staged, strict, replies, 0, 0).asked, strict, replies))
  {
    var staged := Staged(members, blocked);
    WholeFate(members, blocked, Screen(staged, strict, replies, 0, 0).fates, i);
    if !IsBlocked(members[i], blocked) {
      ScreenFates(staged, strict, replies, 0, 0, Position(members, blocked, i));
      FateIsJustified(staged, strict, replies, Position(members, blocked, i));
    }
  }

  /** The fate that the answer to its lookup, number l, gives a member: the first reason that applies, or none. */
  ghost predicate SpokenFor(uid: int, users: map<int, User>, strict: bool, l: nat, f: Fate) {
    f == if uid !in users then Drop(NotFound, l)
         else if users[uid].deleted then Drop(Deleted, l)
         else if users[uid].bot then Drop(Bot, l)
         else if users[uid].self then Drop(Self, l)
         else if strict && (users[uid].scam || users[uid].fake) then Drop(Scam, l)
         else if strict && users[uid].status in ["recently", "last_week", "lastweek", "last_month", "lastmonth"] then
           Drop(Hidden, l)
         else if strict && users[uid].status in ["long_ago", "longago", "empty"] then Drop(Abandoned, l)
         else Keep
  }

  /** A user the filter lets through. */
  ghost predicate Welcome(u: User, strict: bool) {
    && !u.deleted && !u.bot && !u.self
    && (strict ==>
          && !u.scam && !u.fake
          && u.status !in ["recently", "last_week", "lastweek", "last_month",
                           "lastmonth", "long_ago", "longago", "empty"])
  }

  lemma VerdictSpeaks(m: Member, users: map<int, User>, strict: bool, l: nat)
    requires m.uid != 0
    ensures SpokenFor(m.uid, users, strict, l, Verdict(m, users, strict, l))
    ensures Verdict(m, users, strict, l) == Keep <==> m.uid in users && Welcome(users[m.uid], strict)
  {
  }

  /**
   * A member with an id that is not blocked, and whose own lookup was reached and succeeded, is kept exactly
   * if it was found, is not deleted, no bot and not the account itself, and, when the filter is strict, no
   * scam or fake and neither hidden nor long gone; else it is dropped for the first of these that applies.
   */
  lemma FateOfFound(members: seq<Member>, blocked: set<int>, strict: bool, replies: nat -> Reply, i: nat)
    requires i < |members| && members[i].uid != 0 && members[i].uid !in blocked
    ensures var staged, p := Staged(members, blocked), Position(members, blocked, i);
            p < |staged| && staged[p] == members[i]
    ensures var staged, p := Staged(members, blocked), Position(members, blocked, i);
            var l, f := OwnLookup(staged, p), Fates(members, blocked, strict, replies)[i];
            if Reached(staged, p, replies, 0, 0) && replies(l).Found? then
              && SpokenFor(members[i].uid, replies(l).users, strict, l, f)
              && (f == Keep <==>
                    members[i].uid in replies(l).users && Welcome(replies(l).users[members[i].uid], strict))
            else f == Keep
  {
    var staged, p := Staged(members, blocked), Position(members, blocked, i);
    MemberFate(members, blocked, strict, replies, i);
    OwnIdsHave(staged, p);
    var l := OwnLookup(staged, p);
    if replies(l).Found? {
      VerdictSpeaks(members[i], replies(l).users, strict, l);
    }
  }

  function CountFailures(replies: nat -> Reply, k: nat, n: nat): nat
    decreases n
  {
    if n == 0 then 0 else (if replies(k).Found? then 0 else 1) + CountFailures(replies, k + 1, n - 1)
  }

  /** The errors counted are the lookups made that did not succeed. */
  lemma {:induction false} ErrorsAreFailures(staged: seq<Member>, strict: bool, replies: nat -> Reply, k: nat,
                                             errs: nat)
    ensures var s := Screen(staged, strict, replies, k, errs); s.errors == CountFailures(replies, k, |s.asked|)
    decreases |staged|
  {
    if staged != [] {
      ScreenUnfolds(staged, strict, replies, k, errs);
      var n := BatchSize(|staged|);
      if Ids(staged[..n]) == [] {
        ErrorsAreFailures(staged[n..], strict, replies, k, errs);
      } else if replies(k).Found? {
        ErrorsAreFailures(staged[n..], strict, replies, k + 1, 0);
      } else if replies(k).Failed? && errs + 1 < 3 {
        ErrorsAreFailures(staged[n..], strict, replies, k + 1, errs + 1);
      }
    }
  }

  /**
   * A row without an id is never asked about, and yet it is dropped, as "not found", exactly when its batch
   * has some other row with an id, no earlier lookup gave up, and the lookup of the batch succeeds.
   */
  lemma IdlessRowDroppedIff(members: seq<Member>, blocked: set<int>, strict: bool, replies: nat -> Reply, i: nat)
    requires i < |members| && members[i].uid == 0
    ensures var staged, p := Staged(members, blocked), Position(members, blocked, i);
            && p < |staged| && 0 !in OwnIds(staged, p)
            && Fates(members, blocked, strict, replies)[i]
               == if && OwnIds(staged, p) != [] && Reached(staged, p, replies, 0, 0)
                     && replies(OwnLookup(staged, p)).Found?
                  then Drop(NotFound, OwnLookup(staged, p)) else Keep
  {
    MemberFate(members, blocked, strict, replies, i);
    OwnIdsHave(Staged(members, blocked), Position(members, blocked, i));
  }

  /**
   * One case the filter's own promise does not cover: a row without an id, which nobody asked about, is
   * dropped as "not found" as soon as some other row of its batch has an id and the lookup succeeds.
   */
  lemma IdlessRowsAreDroppedUnasked(m: Member, other: Member, users: map<int, User>, strict: bool)
    requires m.uid == 0 && other.uid != 0
    ensures Fates([m, other], {}, strict, _ => Found(users))[0] == Drop(NotFound, 0)
    ensures Fates([m], {}, strict, _ => Found(users)) == [Keep]
  {
    var replies: nat -> Reply := _ => Found(users);
    assert [m, other][1..] == [other] && [other][1..] == [];
    assert Staged([other], {}) == [other] && Ids([other]) == [other.uid];
    assert Staged([m, other], {}) == [m, other] && Ids([m, other]) == [other.uid];
    assert [m, other][..2] == [m, other];
    assert Screen([m, other], strict, replies, 0, 0).fates[0] == Verdict(m, users, strict, 0);
    assert Staged([m], {}) == [m];
    assert [m][..1] == [m] && [m][1..] == [];
    assert Ids([m]) == [];
    assert Screen([m], strict, replies, 0, 0).fates == AllKept(1) + [];
  }
}
