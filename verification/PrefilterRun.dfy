/** prefilter_unaddable itself: the loops over staged batches, the kept list and the statistics. */
module PrefilterRun {
  import opened Common
  import opened Prefilter

  /** What the loops accumulate: the kept members, the counters, and the ids listed as never to be added. */
  datatype Tally = Tally(keep: seq<Member>, removed: nat, reasons: map<Reason, nat>, listed: seq<(int, string)>)

  /** The reason under which a dropped id is listed. */
  function Label(r: Reason): string {
    if r.Hidden? then "privacy" else if r.Abandoned? then "stale" else "invalid"
  }

  function DropOne(t: Tally, uid: int, r: Reason, list: bool): Tally {
    t.(removed := t.removed + 1, reasons := t.reasons[r := CountOf(t.reasons, r) + 1],
       listed := if list && uid != 0 then t.listed + [(uid, Label(r))] else t.listed)
  }

  function CountOne(t: Tally, m: Member, f: Fate, mark: bool): Tally {
    match f
    case Keep => t.(keep := t.keep + [m])
    case Blocked => DropOne(t, m.uid, InBlockList, false)
    case Drop(r, _) => DropOne(t, m.uid, r, mark)
  }

  function Count(t: Tally, ms: seq<Member>, fates: seq<Fate>, mark: bool): Tally
    requires |fates| == |ms|
    decreases |ms|
  {
    if ms == [] then t else Count(CountOne(t, ms[0], fates[0], mark), ms[1..], fates[1..], mark)
  }

  lemma {:induction false} CountConcat(t: Tally, ms: seq<Member>, fates: seq<Fate>, ns: seq<Member>, fates': seq<Fate>,
                                       mark: bool)
    requires |fates| == |ms| && |fates'| == |ns|
    ensures Count(t, ms + ns, fates + fates', mark) == Count(Count(t, ms, fates, mark), ns, fates', mark)
    decreases |ms|
  {
    if ms == [] {
      assert ms + ns == ns && fates + fates' == fates';
    } else {
      assert (ms + ns)[1..] == ms[1..] + ns && (fates + fates')[1..] == fates[1..] + fates';
      CountConcat(CountOne(t, ms[0], fates[0], mark), ms[1..], fates[1..], ns, fates', mark);
    }
  }

  lemma {:induction false} CountKept(t: Tally, ms: seq<Member>, mark: bool)
    ensures Count(t, ms, AllKept(|ms|), mark) == t.(keep := t.keep + ms)
    decreases |ms|
  {
    if ms == [] {
      assert t.keep + ms == t.keep;
    } else {
      assert AllKept(|ms|)[1..] == AllKept(|ms[1..]|);
      CountKept(t.(keep := t.keep + [ms[0]]), ms[1..], mark);
      assert t.keep + [ms[0]] + ms[1..] == t.keep + ms;
    }
  }

  // ---------------------------------------------------------------- what the numbers mean

  function ForReason(r: Reason): Fate -> int {
    (f: Fate) => if !f.Keep? && ReasonOf(f) == r then 1 else 0
  }

  function Sum(reasons: map<Reason, nat>): nat {
    CountOf(reasons, InBlockList) + CountOf(reasons, NotFound) + CountOf(reasons, Deleted) + CountOf(reasons, Bot)
    + CountOf(reasons, Self) + CountOf(reasons, Scam) + CountOf(reasons, Hidden) + CountOf(reasons, Abandoned)
  }

  lemma SumOneMore(reasons: map<Reason, nat>, r: Reason)
    ensures Sum(reasons[r := CountOf(reasons, r) + 1]) == Sum(reasons) + 1
  {
    var reasons' := reasons[r := CountOf(reasons, r) + 1];
    assert forall q :: CountOf(reasons', q) == CountOf(reasons, q) + (if q == r then 1 else 0);
  }

  /** The ids listed as never to be added: those dropped by a lookup, with their reasons. */
  function Listed(ms: seq<Member>, fates: seq<Fate>): seq<(int, string)>
    requires |fates| == |ms|
  {
    if ms == [] then [] else ListedOne(ms[0], fates[0]) + Listed(ms[1..], fates[1..])
  }

  function ListedOne(m: Member, f: Fate): seq<(int, string)> {
    if f.Drop? && m.uid != 0 then [(m.uid, Label(f.reason))] else []
  }

  lemma CountOneMeans(t: Tally, m: Member, f: Fate, mark: bool)
    ensures var u := CountOne(t, m, f, mark);
            && u.removed == t.removed + DroppedOne(f)
            && Sum(u.reasons) == Sum(t.reasons) + DroppedOne(f)
  {
    if !f.Keep? {
      SumOneMore(t.reasons, ReasonOf(f));
    }
  }

  /** The accumulated members are those that Select picks out. */
  lemma {:induction false} CountKeeps(t: Tally, ms: seq<Member>, fates: seq<Fate>, mark: bool)
    requires |fates| == |ms|
    ensures Count(t, ms, fates, mark).keep == t.keep + Select(ms, fates)
    decreases |ms|
  {
    if ms != [] {
      var u := CountOne(t, ms[0], fates[0], mark);
      CountKeeps(u, ms[1..], fates[1..], mark);
      var one := if fates[0].Keep? then [ms[0]] else [];
      assert u.keep == t.keep + one;
      assert t.keep + one + Select(ms[1..], fates[1..]) == t.keep + (one + Select(ms[1..], fates[1..]));
    }
  }

  lemma CountOneLists(t: Tally, m: Member, f: Fate)
    ensures CountOne(t, m, f, true).listed == t.listed + ListedOne(m, f)
  {
  }

  /** The accumulated ids are those that Listed picks out. */
  lemma {:induction false} CountLists(t: Tally, ms: seq<Member>, fates: seq<Fate>)
    requires |fates| == |ms|
    ensures Count(t, ms, fates, true).listed == t.listed + Listed(ms, fates)
    decreases |ms|
  {
    if ms != [] {
      CountOneLists(t, ms[0], fates[0]);
      CountLists(CountOne(t, ms[0], fates[0], true), ms[1..], fates[1..]);
      Regroup(t.listed, ListedOne(ms[0], fates[0]), Listed(ms[1..], fates[1..]));
    }
  }

  lemma {:induction false} CountListsNothing(t: Tally, ms: seq<Member>, fates: seq<Fate>)
    requires |fates| == |ms|
    ensures Count(t, ms, fates, false).listed == t.listed
    decreases |ms|
  {
    if ms != [] {
      CountListsNothing(CountOne(t, ms[0], fates[0], false), ms[1..], fates[1..]);
    }
  }

  /** The accumulated numbers: one for every drop, under its reason. */
  lemma {:induction false} CountAddsUp(t: Tally, ms: seq<Member>, fates: seq<Fate>, mark: bool)
    requires |fates| == |ms|
    ensures Count(t, ms, fates, mark).removed == t.removed + Total(DroppedOne, fates)
    ensures Sum(Count(t, ms, fates, mark).reasons) == Sum(t.reasons) + Total(DroppedOne, fates)
    decreases |ms|
  {
    if ms != [] {
      CountOneMeans(t, ms[0], fates[0], mark);
      CountAddsUp(CountOne(t, ms[0], fates[0], mark), ms[1..], fates[1..], mark);
    }
  }

  lemma {:induction false} CountByReason(t: Tally, ms: seq<Member>, fates: seq<Fate>, mark: bool, r: Reason)
    requires |fates| == |ms|
    ensures CountOf(Count(t, ms, fates, mark).reasons, r) == CountOf(t.reasons, r) + Total(ForReason(r), fates)
    decreases |ms|
  {
    if ms != [] {
      CountByReason(CountOne(t, ms[0], fates[0], mark), ms[1..], fates[1..], mark, r);
    }
  }

  lemma {:induction false} SelectSize(ms: seq<Member>, fates: seq<Fate>)
    requires |fates| == |ms|
    ensures |Select(ms, fates)| + Total(DroppedOne, fates) == |ms|
  {
    if ms != [] {
      SelectSize(ms[1..], fates[1..]);
    }
  }

  /** The blocked members first, then the staged ones, give the same as all members in their own order. */
  lemma {:induction false} WholeSelects(members: seq<Member>, blocked: set<int>, fates: seq<Fate>)
    requires |fates| == |Staged(members, blocked)|
    ensures Select(members, Whole(members, blocked, fates)) == Select(Staged(members, blocked), fates)
    ensures Listed(members, Whole(members, blocked, fates)) == Listed(Staged(members, blocked), fates)
  {
    if members != [] {
      var w := Whole(members, blocked, fates);
      var staged := Staged(members, blocked);
      if IsBlocked(members[0], blocked) {
        WholeSelects(members[1..], blocked, fates);
        assert w[1..] == Whole(members[1..], blocked, fates) && staged == Staged(members[1..], blocked);
      } else {
        assert staged[0] == members[0] && staged[1..] == Staged(members[1..], blocked);
        WholeSelects(members[1..], blocked, fates[1..]);
        assert w[1..] == Whole(members[1..], blocked, fates[1..]);
      }
    }
  }

  lemma {:induction false} WholeCounts(members: seq<Member>, blocked: set<int>, fates: seq<Fate>, r: Reason)
    requires |fates| == |Staged(members, blocked)|
    ensures var w := Whole(members, blocked, fates);
            var n := |members| - |Staged(members, blocked)|;
            && Total(DroppedOne, w) == n + Total(DroppedOne, fates)
            && Total(ForReason(r), w) == (if r.InBlockList? then n else 0) + Total(ForReason(r), fates)
  {
    if members != [] {
      var w := Whole(members, blocked, fates);
      var staged := Staged(members, blocked);
      if IsBlocked(members[0], blocked) {
        WholeCounts(members[1..], blocked, fates, r);
        assert w[1..] == Whole(members[1..], blocked, fates) && staged == Staged(members[1..], blocked);
      } else {
        assert staged[0] == members[0] && staged[1..] == Staged(members[1..], blocked);
        WholeCounts(members[1..], blocked, fates[1..], r);
        assert w[1..] == Whole(members[1..], blocked, fates[1..]);
      }
    }
  }

  // ---------------------------------------------------------------- the kept list and the listed ids, entry by entry

  function KeptBefore(fates: seq<Fate>, i: nat): nat
    requires i <= |fates|
  {
    if i == 0 then 0 else (if fates[0] == Keep then 1 else 0) + KeptBefore(fates[1..], i - 1)
  }

  /** The kept list has the members whose fate is to be kept, each at its place among them, and nobody else. */
  lemma {:induction false} SelectAt(ms: seq<Member>, fates: seq<Fate>, i: nat)
    requires |fates| == |ms|
    ensures |Select(ms, fates)| == KeptBefore(fates, |fates|)
    ensures i < |ms| && fates[i] == Keep ==>
              KeptBefore(fates, i) < |Select(ms, fates)| && Select(ms, fates)[KeptBefore(fates, i)] == ms[i]
  {
    if ms != [] {
      SelectAt(ms[1..], fates[1..], if i > 0 then i - 1 else 0);
    }
  }

  /** Whether member i is listed as never to be added: it was dropped by a lookup, and has an id. */
  predicate IsListed(m: Member, f: Fate) { f.Drop? && m.uid != 0 }

  function ListedBefore(ms: seq<Member>, fates: seq<Fate>, i: nat): nat
    requires |fates| == |ms| && i <= |ms|
  {
    if i == 0 then 0 else (if IsListed(ms[0], fates[0]) then 1 else 0) + ListedBefore(ms[1..], fates[1..], i - 1)
  }

  /** Each dropped id is listed at its place, as private, stale or invalid by its reason, and no other is. */
  lemma {:induction false} ListedAt(ms: seq<Member>, fates: seq<Fate>, i: nat)
    requires |fates| == |ms|
    ensures |Listed(ms, fates)| == ListedBefore(ms, fates, |ms|)
    ensures i < |ms| && IsListed(ms[i], fates[i]) ==>
              && ListedBefore(ms, fates, i) < |Listed(ms, fates)|
              && Listed(ms, fates)[ListedBefore(ms, fates, i)]
                 == (ms[i].uid, match fates[i].reason
                                case Hidden => "privacy"
                                case Abandoned => "stale"
                                case _ => "invalid")
  {
    if ms != [] {
      ListedAt(ms[1..], fates[1..], if i > 0 then i - 1 else 0);
    }
  }

  /** 1 for a fate that counts for r. */
  function CountsFor(r: Reason): Fate -> int {
    (f: Fate) => if (f == Blocked && r == InBlockList) || (f.Drop? && f.reason == r) then 1 else 0
  }

  lemma {:induction false} ReasonsMean(fates: seq<Fate>, r: Reason)
    ensures Total(ForReason(r), fates) == Total(CountsFor(r), fates)
  {
    if fates != [] {
      ReasonsMean(fates[1..], r);
    }
  }

  /** The ids in lookups that were answered: the "checked" statistic. */
  function Checked(asked: seq<seq<int>>, replies: nat -> Reply, k: nat): nat
    decreases |asked|
  {
    if asked == [] then 0 else (if replies(k).Found? then |asked[0]| else 0) + Checked(asked[1..], replies, k + 1)
  }

  // ---------------------------------------------------------------- the loops

  lemma StageOne(members: seq<Member>, blocked: set<int>, i: nat, before: seq<Member>)
    requires i < |members|
    ensures before + Staged(members[i..], blocked)
         == before + (if IsBlocked(members[i], blocked) then [] else [members[i]]) + Staged(members[i + 1..], blocked)
  {
    assert members[i..][0] == members[i] && members[i..][1..] == members[i + 1..];
  }

  /** Set aside the blocked members; returns the others and how many were set aside. */
  method Stage(members: seq<Member>, blocked: set<int>) returns (staged: seq<Member>, removed: nat)
    ensures staged == Staged(members, blocked) && removed == |members| - |staged|
  {
    staged, removed := [], 0;
    var i := 0;
    while i < |members|
      invariant 0 <= i <= |members|
      invariant staged + Staged(members[i..], blocked) == Staged(members, blocked)
      invariant removed + |staged| == i
    {
      StageOne(members, blocked, i, staged);
      if members[i].uid != 0 && members[i].uid in blocked {
        removed := removed + 1;
      } else {
        staged := staged + [members[i]];
      }
      i := i + 1;
    }
    assert members[i..] == [];
  }

  /** Judge one batch by the answer to its lookup. */
  method Judge(t: Tally, chunk: seq<Member>, users: map<int, User>, strict: bool, k: nat, mark: bool) returns (r: Tally)
    ensures r == Count(t, chunk, Verdicts(chunk, users, strict, k), mark)
  {
    r := t;
    var i := 0;
    while i < |chunk|
      invariant 0 <= i <= |chunk|
      invariant Count(r, chunk[i..], Verdicts(chunk[i..], users, strict, k), mark)
             == Count(t, chunk, Verdicts(chunk, users, strict, k), mark)
    {
      var m := chunk[i];
      assert chunk[i..][0] == m && chunk[i..][1..] == chunk[i + 1..];
      var vs := Verdicts(chunk[i..], users, strict, k);
      assert vs[0] == Verdict(m, users, strict, k) && vs[1..] == Verdicts(chunk[i + 1..], users, strict, k);
      i := i + 1;
      if m.uid == 0 || m.uid !in users {
        r := DropOne(r, m.uid, NotFound, mark);
        continue;
      }
      var bad := Unaddable(users[m.uid], strict);
      if bad.Some? {
        r := DropOne(r, m.uid, bad.value, mark);
        continue;
      }
      r := r.(keep := r.keep + [m]);
    }
    assert chunk[i..] == [];
  }

  /** The statistics returned beside the kept members. */
  datatype Stats = Stats(checked: nat, removed: nat, kept: nat, reasons: map<Reason, nat>, errors: nat, aborted: bool)

  lemma {:induction false} CheckedConcat(xs: seq<seq<int>>, ys: seq<seq<int>>, replies: nat -> Reply, k: nat)
    ensures Checked(xs + ys, replies, k) == Checked(xs, replies, k) + Checked(ys, replies, k + |xs|)
    decreases |xs|
  {
    if xs == [] {
      assert xs + ys == ys;
    } else {
      assert (xs + ys)[1..] == xs[1..] + ys;
      CheckedConcat(xs[1..], ys, replies, k + 1);
    }
  }

  /** What the loop has to arrive at. */
  datatype Goal = Goal(tally: Tally, lookups: nat, checked: nat, errors: nat, aborted: bool)

  /** With s for the rest still to come, the loop arrives at its goal from here. */
  ghost predicate OnCourse(goal: Goal, rest: seq<Member>, s: Screening, replies: nat -> Reply, mark: bool,
                           t: Tally, k: nat, checked: nat, errors: nat)
  {
    && |s.fates| == |rest|
    && goal.tally == Count(t, rest, s.fates, mark)
    && goal.lookups == k + |s.asked|
    && goal.checked == checked + Checked(s.asked, replies, k)
    && goal.errors == errors + s.errors
    && goal.aborted == s.aborted
  }

  /** One batch further on. */
  lemma Advance(goal: Goal, chunk: seq<Member>, rest: seq<Member>, fates: seq<Fate>, ids: seq<seq<int>>, e: nat,
                s: Screening,
                replies: nat -> Reply, mark: bool, t: Tally, k: nat, checked: nat, errors: nat)
    requires |fates| == |chunk| && |s.fates| == |rest|
    requires OnCourse(goal, chunk + rest, Before(fates, ids, e, s), replies, mark, t, k, checked, errors)
    ensures OnCourse(goal, rest, s, replies, mark, Count(t, chunk, fates, mark), k + |ids|,
                     checked + Checked(ids, replies, k), errors + e)
  {
    CountConcat(t, chunk, fates, rest, s.fates, mark);
    CheckedConcat(ids, s.asked, replies, k);
  }

  lemma CheckedOnce(ids: seq<int>, replies: nat -> Reply, k: nat)
    ensures Checked([ids], replies, k) == if replies(k).Found? then |ids| else 0
  {
    assert [ids][1..] == [];
  }

  /** A batch without ids, or one whose lookup failed for the first or second time in a row, is kept. */
  lemma OnAfterKept(goal: Goal, rest: seq<Member>, strict: bool, replies: nat -> Reply, mark: bool,
                    t: Tally, k: nat, errs: nat, checked: nat, errors: nat)
    requires rest != []
    requires OnCourse(goal, rest, Screen(rest, strict, replies, k, errs), replies, mark, t, k, checked, errors)
    ensures var n := BatchSize(|rest|);
            var t' := t.(keep := t.keep + rest[..n]);
            && (Ids(rest[..n]) == [] ==>
                  OnCourse(goal, rest[n..], Screen(rest[n..], strict, replies, k, errs), replies, mark, t', k, checked,
                           errors))
            && (Ids(rest[..n]) != [] && replies(k).Failed? && errs + 1 < 3 ==>
                  OnCourse(goal, rest[n..], Screen(rest[n..], strict, replies, k + 1, errs + 1), replies, mark,
                           t', k + 1, checked, errors + 1))
  {
    var n := BatchSize(|rest|);
    ScreenUnfolds(rest, strict, replies, k, errs);
    assert rest == rest[..n] + rest[n..];
    CountKept(t, rest[..n], mark);
    if Ids(rest[..n]) == [] {
      Advance(goal, rest[..n], rest[n..], AllKept(n), [], 0, Screen(rest[n..], strict, replies, k, errs),
              replies, mark, t, k, checked, errors);
    } else if replies(k).Failed? && errs + 1 < 3 {
      CheckedOnce(Ids(rest[..n]), replies, k);
      Advance(goal, rest[..n], rest[n..], AllKept(n), [Ids(rest[..n])], 1,
              Screen(rest[n..], strict, replies, k + 1, errs + 1),
              replies, mark, t, k, checked, errors);
    }
  }

  /** A batch whose lookup succeeded is judged. */
  lemma OnAfterFound(goal: Goal, rest: seq<Member>, strict: bool, replies: nat -> Reply, mark: bool,
                     t: Tally, k: nat, errs: nat, checked: nat, errors: nat)
    requires rest != [] && Ids(rest[..BatchSize(|rest|)]) != [] && replies(k).Found?
    requires OnCourse(goal, rest, Screen(rest, strict, replies, k, errs), replies, mark, t, k, checked, errors)
    ensures var n := BatchSize(|rest|);
            var t' := Count(t, rest[..n], Verdicts(rest[..n], replies(k).users, strict, k), mark);
            OnCourse(goal, rest[n..], Screen(rest[n..], strict, replies, k + 1, 0), replies, mark,
                     t', k + 1, checked + |Ids(rest[..n])|, errors)
  {
    var n := BatchSize(|rest|);
    ScreenUnfolds(rest, strict, replies, k, errs);
    assert rest == rest[..n] + rest[n..];
    CheckedOnce(Ids(rest[..n]), replies, k);
    Advance(goal, rest[..n], rest[n..], Verdicts(rest[..n], replies(k).users, strict, k), [Ids(rest[..n])], 0,
            Screen(rest[n..], strict, replies, k + 1, 0), replies, mark, t, k, checked, errors);
  }

  /** Giving up keeps everybody from this batch on, and that ends the screening. */
  lemma GoalAfterAbort(goal: Goal, rest: seq<Member>, strict: bool, replies: nat -> Reply, mark: bool,
                       t: Tally, k: nat, errs: nat, checked: nat, errors: nat)
    requires rest != [] && Ids(rest[..BatchSize(|rest|)]) != []
    requires replies(k).Flood? || (replies(k).Failed? && errs + 1 >= 3)
    requires OnCourse(goal, rest, Screen(rest, strict, replies, k, errs), replies, mark, t, k, checked, errors)
    ensures goal == Goal(t.(keep := t.keep + rest), k + 1, checked, errors + 1, true)
  {
    ScreenUnfolds(rest, strict, replies, k, errs);
    CountKept(t, rest, mark);
    CheckedOnce(Ids(rest[..BatchSize(|rest|)]), replies, k);
  }

  lemma KeepInTwoParts(keep: seq<Member>, rest: seq<Member>, n: nat)
    requires n <= |rest|
    ensures keep + rest[..n] + rest[n..] == keep + rest
  {
    assert rest == rest[..n] + rest[n..];
  }

  /** The loop over the batches. */
  method ScreenStaged(staged: seq<Member>, strict: bool, replies: nat -> Reply, mark: bool, t0: Tally)
    returns (t: Tally, lookups: nat, checked: nat, errors: nat, aborted: bool)
    ensures var s0 := Screen(staged, strict, replies, 0, 0);
            && t == Count(t0, staged, s0.fates, mark) && lookups == |s0.asked|
            && checked == Checked(s0.asked, replies, 0) && errors == s0.errors && aborted == s0.aborted
  {
    ghost var s0 := Screen(staged, strict, replies, 0, 0);
    ghost var goal := Goal(Count(t0, staged, s0.fates, mark), |s0.asked|, Checked(s0.asked, replies, 0), s0.errors,
                           s0.aborted);
    t, lookups, checked, errors, aborted := t0, 0, 0, 0, false;
    var rest, errs := staged, 0;
    while rest != []
      invariant OnCourse(goal, rest, Screen(rest, strict, replies, lookups, errs), replies, mark,
                         t, lookups, checked, errors)
      decreases |rest|
    {
      var gaveUp;
      rest, t, lookups, errs, checked, errors, gaveUp :=
        ScreenBatch(goal, rest, strict, replies, mark, t, lookups, errs, checked, errors);
      if gaveUp {
        aborted := true;
        return;
      }
    }
  }

  /** One turn of that loop, from the first batch of rest. */
  method ScreenBatch(ghost goal: Goal, rest: seq<Member>, strict: bool, replies: nat -> Reply, mark: bool,
                     t: Tally, k: nat, errs: nat, checked: nat, errors: nat)
    returns (rest': seq<Member>, t': Tally, k': nat, errs': nat, checked': nat, errors': nat, gaveUp: bool)
    requires rest != []
    requires OnCourse(goal, rest, Screen(rest, strict, replies, k, errs), replies, mark, t, k, checked, errors)
    ensures gaveUp ==> goal == Goal(t', k', checked', errors', true)
    ensures !gaveUp ==> |rest'| < |rest|
    ensures !gaveUp ==>
              OnCourse(goal, rest', Screen(rest', strict, replies, k', errs'), replies, mark, t', k', checked', errors')
  {
    var n := BatchSize(|rest|);
    var chunk := rest[..n];
    var ids := Ids(chunk);
    rest', t', k', errs', checked', errors', gaveUp := rest[n..], t, k, errs, checked, errors, false;
    OnAfterKept(goal, rest, strict, replies, mark, t, k, errs, checked, errors);
    if ids == [] {
      t' := t.(keep := t.keep + chunk);
      return;
    }
    k' := k + 1;
    var reply := replies(k);
    match reply {
      case Found(users) =>
        OnAfterFound(goal, rest, strict, replies, mark, t, k, errs, checked, errors);
        t' := Judge(t, chunk, users, strict, k, mark);
        checked', errs' := checked + |ids|, 0;
      case Flood =>
        GoalAfterAbort(goal, rest, strict, replies, mark, t, k, errs, checked, errors);
        t', errors', gaveUp := t.(keep := t.keep + rest), errors + 1, true;
      case Failed =>
        errors', errs' := errors + 1, errs + 1;
        t', gaveUp := KeepFailed(goal, rest, strict, replies, mark, t, k, errs, checked, errors);
    }
  }

  /** A failed lookup keeps its batch; the third in a row keeps everybody else too, and ends the loop. */
  method KeepFailed(ghost goal: Goal, rest: seq<Member>, strict: bool, ghost replies: nat -> Reply, mark: bool,
                    t: Tally, k: nat, errs: nat, ghost checked: nat, ghost errors: nat)
    returns (t': Tally, gaveUp: bool)
    requires rest != [] && Ids(rest[..BatchSize(|rest|)]) != [] && replies(k).Failed?
    requires OnCourse(goal, rest, Screen(rest, strict, replies, k, errs), replies, mark, t, k, checked, errors)
    ensures gaveUp == (errs + 1 >= 3)
    ensures gaveUp ==> goal == Goal(t', k + 1, checked, errors + 1, true)
    ensures !gaveUp ==> t' == t.(keep := t.keep + rest[..BatchSize(|rest|)])
  {
    var n := BatchSize(|rest|);
    t', gaveUp := t.(keep := t.keep + rest[..n]), errs + 1 >= 3;
    if gaveUp {
      GoalAfterAbort(goal, rest, strict, replies, mark, t, k, errs, checked, errors);
      KeepInTwoParts(t.keep, rest, n);
      t' := t'.(keep := t'.keep + rest[n..]);
    }
  }

  /** The tally once the blocked members have been set aside. */
  function AfterStaging(removed: nat): Tally {
    Tally([], removed, if removed == 0 then map[] else map[InBlockList := removed], [])
  }

  lemma StagingCount(removed: nat, r: Reason)
    ensures CountOf(AfterStaging(removed).reasons, r) == if r.InBlockList? then removed else 0
  {
  }

  /** t is what the loops leave for these members. */
  ghost predicate Final(members: seq<Member>, blocked: set<int>, strict: bool, replies: nat -> Reply, mark: bool,
                        t: Tally)
  {
    var staged := Staged(members, blocked);
    |staged| <= |members|
    && t == Count(AfterStaging(|members| - |staged|), staged, Screen(staged, strict, replies, 0, 0).fates, mark)
  }

  /** For any fates of the staged members: the kept ones in order, and the ids listed. */
  lemma TallyKeeps(members: seq<Member>, blocked: set<int>, removed: nat, fates: seq<Fate>, mark: bool)
    requires |fates| == |Staged(members, blocked)|
    ensures var t := Count(AfterStaging(removed), Staged(members, blocked), fates, mark);
            var w := Whole(members, blocked, fates);
            t.keep == Select(members, w) && t.listed == (if mark then Listed(members, w) else [])
  {
    var staged := Staged(members, blocked);
    CountKeeps(AfterStaging(removed), staged, fates, mark);
    CountLists(AfterStaging(removed), staged, fates);
    CountListsNothing(AfterStaging(removed), staged, fates);
    WholeSelects(members, blocked, fates);
    assert [] + Select(staged, fates) == Select(staged, fates);
  }

  lemma FinalKeeps(members: seq<Member>, blocked: set<int>, strict: bool, replies: nat -> Reply, mark: bool, t: Tally)
    requires Final(members, blocked, strict, replies, mark, t)
    ensures var w := Fates(members, blocked, strict, replies);
            t.keep == Select(members, w) && t.listed == (if mark then Listed(members, w) else [])
  {
    var staged := Staged(members, blocked);
    TallyKeeps(members, blocked, |members| - |staged|, Screen(staged, strict, replies, 0, 0).fates, mark);
  }

  lemma TallyAddsUp(removed: nat, staged: seq<Member>, fates: seq<Fate>, mark: bool)
    requires |fates| == |staged|
    ensures var t := Count(AfterStaging(removed), staged, fates, mark);
            |t.keep| + t.removed == removed + |staged| && Sum(t.reasons) == t.removed
  {
    CountKeeps(AfterStaging(removed), staged, fates, mark);
    CountAddsUp(AfterStaging(removed), staged, fates, mark);
    SelectSize(staged, fates);
  }

  lemma FinalAddsUp(members: seq<Member>, blocked: set<int>, strict: bool, replies: nat -> Reply, mark: bool, t: Tally)
    requires Final(members, blocked, strict, replies, mark, t)
    ensures |t.keep| + t.removed == |members| && Sum(t.reasons) == t.removed
  {
    var staged := Staged(members, blocked);
    TallyAddsUp(|members| - |staged|, staged, Screen(staged, strict, replies, 0, 0).fates, mark);
  }

  lemma TallyByReason(members: seq<Member>, blocked: set<int>, fates: seq<Fate>, mark: bool, r: Reason)
    requires |fates| == |Staged(members, blocked)| <= |members|
    ensures var staged := Staged(members, blocked);
            CountOf(Count(AfterStaging(|members| - |staged|), staged, fates, mark).reasons, r)
            == Total(ForReason(r), Whole(members, blocked, fates))
  {
    var staged := Staged(members, blocked);
    StagingCount(|members| - |staged|, r);
    CountByReason(AfterStaging(|members| - |staged|), staged, fates, mark, r);
    WholeCounts(members, blocked, fates, r);
  }

  lemma FinalByReason(members: seq<Member>, blocked: set<int>, strict: bool, replies: nat -> Reply, mark: bool,
                      t: Tally, r: Reason)
    requires Final(members, blocked, strict, replies, mark, t)
    ensures CountOf(t.reasons, r) == Total(ForReason(r), Fates(members, blocked, strict, replies))
  {
    TallyByReason(members, blocked, Screen(Staged(members, blocked), strict, replies, 0, 0).fates, mark, r);
  }

  /** prefilter_unaddable: the kept members, the statistics, the lookups made, and the ids listed. */
  method PrefilterUnaddable(members: seq<Member>, blocked: set<int>, mark: bool, strict: bool, replies: nat -> Reply)
    returns (kept: seq<Member>, stats: Stats, lookups: nat, listed: seq<(int, string)>)
    ensures var w := Fates(members, blocked, strict, replies);
            && kept == Select(members, w)
            && |kept| + stats.removed == |members| && stats.kept == |kept|
            && Sum(stats.reasons) == stats.removed
            && (forall r :: CountOf(stats.reasons, r) == Total(ForReason(r), w))
            && listed == (if mark then Listed(members, w) else [])
    ensures lookups <= (|members| + 99) / 100
    ensures forall r :: CountOf(stats.reasons, r) == Total(CountsFor(r), Fates(members, blocked, strict, replies))
    ensures var s := Screen(Staged(members, blocked), strict, replies, 0, 0);
            && lookups == |s.asked| && stats.checked == Checked(s.asked, replies, 0)
            && stats.errors == s.errors && stats.aborted == s.aborted
  {
    PrefilterIsConservative(members, blocked, strict, replies);
    if members == [] {
      return [], Stats(0, 0, 0, map[], 0, false), 0, [];
    }
    var staged, removed := Stage(members, blocked);
    var t0 := AfterStaging(removed);
    var t, checked, errors, aborted;
    t, lookups, checked, errors, aborted := ScreenStaged(staged, strict, replies, mark, t0);
    StagedIsShorter(members, blocked);
    FinalKeeps(members, blocked, strict, replies, mark, t);
    FinalAddsUp(members, blocked, strict, replies, mark, t);
    forall r ensures CountOf(t.reasons, r) == Total(ForReason(r), Fates(members, blocked, strict, replies)) {
      FinalByReason(members, blocked, strict, replies, mark, t, r);
    }
    forall r ensures CountOf(t.reasons, r) == Total(CountsFor(r), Fates(members, blocked, strict, replies)) {
      ReasonsMean(Fates(members, blocked, strict, replies), r);
    }
    kept, listed := t.keep, t.listed;
    stats := Stats(checked, t.removed, |kept|, t.reasons, errors, aborted);
  }
}
