/** The order of the add queue: prefer_addable_members (add_engine.py) and order_members_for_add (add_queue.py). */
module AddQueue {
  import opened Common
  import Text

  datatype Member = Member(userId: int, username: string, phone: string)

  /** The sort key: a rank (username, phone, neither) and a text compared within the rank. */
  datatype Key = Key(rank: nat, text: string)

  predicate KeyLeq(a: Key, b: Key) {
    a.rank < b.rank || (a.rank == b.rank && Text.Leq(a.text, b.text))
  }

  function KeyOf(m: Member): Key {
    if Text.Strip(m.username) != "" then Key(0, Text.Strip(m.username))
    else if Text.Strip(m.phone) != "" then Key(1, Text.Strip(m.phone))
    else Key(2, Text.Str(m.userId))
  }

  predicate Reachable(m: Member) { Text.Strip(m.username) != "" || Text.Strip(m.phone) != "" }

  /** The members kept, in their order: those with a username or a phone, or all of them. */
  function Kept(members: seq<Member>, dropIdOnly: bool): seq<Member> {
    if members == [] then []
    else (if !dropIdOnly || Reachable(members[0]) then [members[0]] else []) + Kept(members[1..], dropIdOnly)
  }

  // ---------------------------------------------------------------- the stable sort by key

  function Insert(m: Member, ms: seq<Member>): seq<Member> {
    if ms == [] || KeyLeq(KeyOf(m), KeyOf(ms[0])) then [m] + ms else [ms[0]] + Insert(m, ms[1..])
  }

  function Sort(ms: seq<Member>): seq<Member> {
    if ms == [] then [] else Insert(ms[0], Sort(ms[1..]))
  }

  ghost predicate SortedByKey(ms: seq<Member>) {
    forall i, j :: 0 <= i < j < |ms| ==> KeyLeq(KeyOf(ms[i]), KeyOf(ms[j]))
  }

  /** The members with one key, in their order. */
  function WithKey(ms: seq<Member>, k: Key): seq<Member> {
    if ms == [] then [] else (if KeyOf(ms[0]) == k then [ms[0]] else []) + WithKey(ms[1..], k)
  }

  /**
   * What the order means: members with a username come first, by username; then those with a phone, by
   * phone; then the others, by the digits of their id.
   */
  lemma OrderMeans(a: Member, b: Member)
    ensures KeyLeq(KeyOf(a), KeyOf(b)) <==>
              var an, bn := Text.Strip(a.username), Text.Strip(b.username);
              var ap, bp := Text.Strip(a.phone), Text.Strip(b.phone);
              if an != "" then bn == "" || Text.Before(an, bn) || an == bn
              else if bn != "" then false
              else if ap != "" then bp == "" || Text.Before(ap, bp) || ap == bp
              else if bp != "" then false
              else Text.Before(Text.Str(a.userId), Text.Str(b.userId)) || Text.Str(a.userId) == Text.Str(b.userId)
  {
    Text.LeqMeans(KeyOf(a).text, KeyOf(b).text);
  }

  lemma KeyLeqTotal(a: Key, b: Key)
    ensures KeyLeq(a, b) || KeyLeq(b, a)
  {
    Text.LeqTotal(a.text, b.text);
  }

  lemma KeyLeqTransitive(a: Key, b: Key, c: Key)
    requires KeyLeq(a, b) && KeyLeq(b, c)
    ensures KeyLeq(a, c)
  {
    if a.rank == b.rank && b.rank == c.rank {
      Text.LeqTransitive(a.text, b.text, c.text);
    }
  }

  lemma {:induction false} InsertIsPermutation(m: Member, ms: seq<Member>)
    ensures multiset(Insert(m, ms)) == multiset(ms) + multiset{m}
  {
    if ms != [] && !KeyLeq(KeyOf(m), KeyOf(ms[0])) {
      InsertIsPermutation(m, ms[1..]);
      assert ms == [ms[0]] + ms[1..];
    }
  }

  lemma {:induction false} InsertSorts(m: Member, ms: seq<Member>)
    requires SortedByKey(ms)
    ensures SortedByKey(Insert(m, ms))
  {
    if ms == [] {
    } else if KeyLeq(KeyOf(m), KeyOf(ms[0])) {
      forall j | 0 < j < |ms| ensures KeyLeq(KeyOf(m), KeyOf(ms[j])) {
        KeyLeqTransitive(KeyOf(m), KeyOf(ms[0]), KeyOf(ms[j]));
      }
    } else {
      KeyLeqTotal(KeyOf(m), KeyOf(ms[0]));
      InsertSorts(m, ms[1..]);
      InsertIsPermutation(m, ms[1..]);
      var rest := Insert(m, ms[1..]);
      forall j | 0 <= j < |rest| ensures KeyLeq(KeyOf(ms[0]), KeyOf(rest[j])) {
        assert rest[j] in multiset(rest);
        assert rest[j] == m || rest[j] in ms[1..];
      }
    }
  }

  lemma {:induction false} InsertIsStable(m: Member, ms: seq<Member>, k: Key)
    requires SortedByKey(ms)
    ensures WithKey(Insert(m, ms), k) == (if KeyOf(m) == k then [m] else []) + WithKey(ms, k)
  {
    if ms != [] && !KeyLeq(KeyOf(m), KeyOf(ms[0])) {
      InsertIsStable(m, ms[1..], k);
      KeyLeqTotal(KeyOf(m), KeyOf(m));
      assert Insert(m, ms)[1..] == Insert(m, ms[1..]);
      assert KeyOf(m) != KeyOf(ms[0]);
    } else {
      assert ([m] + ms)[1..] == ms;
    }
  }

  /** The sort gives the same members, in key order, with members of equal keys in their original order. */
  lemma {:induction false} SortIsStableSort(ms: seq<Member>)
    ensures multiset(Sort(ms)) == multiset(ms)
    ensures SortedByKey(Sort(ms))
    ensures forall k :: WithKey(Sort(ms), k) == WithKey(ms, k)
  {
    if ms != [] {
      SortIsStableSort(ms[1..]);
      InsertIsPermutation(ms[0], Sort(ms[1..]));
      InsertSorts(ms[0], Sort(ms[1..]));
      assert ms == [ms[0]] + ms[1..];
      forall k ensures WithKey(Sort(ms), k) == WithKey(ms, k) {
        InsertIsStable(ms[0], Sort(ms[1..]), k);
      }
    }
  }

  lemma {:induction false} KeptAppend(ms: seq<Member>, m: Member, dropIdOnly: bool)
    ensures Kept(ms + [m], dropIdOnly)
         == Kept(ms, dropIdOnly) + (if !dropIdOnly || Reachable(m) then [m] else [])
  {
    if ms == [] {
      assert (ms + [m])[1..] == [];
    } else {
      assert (ms + [m])[1..] == ms[1..] + [m];
      KeptAppend(ms[1..], m, dropIdOnly);
      Regroup(if !dropIdOnly || Reachable(ms[0]) then [ms[0]] else [], Kept(ms[1..], dropIdOnly),
              if !dropIdOnly || Reachable(m) then [m] else []);
    }
  }

  method IsIdOnly(u: Member) returns (r: bool)
    ensures r == !Reachable(u)
  {
    var un, ph := Text.Strip(u.username), Text.Strip(u.phone);
    r := un == "" && ph == "";
  }

  method PreferAddableMembers(members: seq<Member>, dropIdOnly: bool) returns (r: seq<Member>)
    ensures r == Sort(Kept(members, dropIdOnly))
  {
    var out: seq<Member> := [];
    var i := 0;
    while i < |members|
      invariant 0 <= i <= |members|
      invariant out == Kept(members[..i], dropIdOnly)
    {
      var u := members[i];
      KeptAppend(members[..i], u, dropIdOnly);
      assert members[..i + 1] == members[..i] + [u];
      var idOnly := IsIdOnly(u);
      i := i + 1;
      if dropIdOnly && idOnly {
        continue;
      }
      out := out + [u];
    }
    assert members[..i] == members;
    r := Sort(out);
  }

  // ---------------------------------------------------------------- shuffling in place

  /** random.shuffle: the draws are arbitrary, so this is any shuffle. */
  method Shuffle(a: array<Member>, draws: seq<nat>)
    modifies a
    ensures multiset(a[..]) == multiset(old(a[..]))
  {
    var i := a.Length;
    while i > 1
      invariant i <= a.Length
      invariant multiset(a[..]) == multiset(old(a[..]))
    {
      i := i - 1;
      var j := if i < |draws| then draws[i] % (i + 1) else 0;
      a[i], a[j] := a[j], a[i];
    }
  }

  const MAX_MODE_HEAD_SIZE: nat := 800

  /** A copy of ms, shuffled. */
  method ShuffledCopy(ms: seq<Member>, draws: seq<nat>) returns (r: seq<Member>)
    ensures multiset(r) == multiset(ms) && |r| == |ms|
  {
    var a := new Member[|ms|](i requires 0 <= i < |ms| => ms[i]);
    assert a[..] == ms;
    Shuffle(a, draws);
    r := a[..];
    SameSize(r, ms);
  }

  lemma SameSize(a: seq<Member>, b: seq<Member>)
    requires multiset(a) == multiset(b)
    ensures |a| == |b|
  {
    assert |multiset(a)| == |multiset(b)|;
  }

  /**
   * The order in which members are queued: outside max mode the sorted order; in max mode a shuffle, of
   * the first 800 and the rest separately, so that nobody in the first 800 ranks behind anybody after.
   */
  method OrderMembersForAdd(members: seq<Member>, addMode: string, draws: seq<nat>, tailDraws: seq<nat>)
    returns (r: seq<Member>)
    ensures multiset(r) == multiset(Kept(members, true))
    ensures addMode != "max" ==> r == Sort(Kept(members, true)) && SortedByKey(r)
    ensures |r| > 800 ==> forall i, j :: 0 <= i < 800 <= j < |r| ==> KeyLeq(KeyOf(r[i]), KeyOf(r[j]))
  {
    var ordered := PreferAddableMembers(members, true);
    SortIsStableSort(Kept(members, true));
    SameSize(ordered, Kept(members, true));
    if addMode != "max" {
      return ordered;
    }
    if |ordered| > MAX_MODE_HEAD_SIZE {
      var head := ShuffledCopy(ordered[..MAX_MODE_HEAD_SIZE], draws);
      var tail := ShuffledCopy(ordered[MAX_MODE_HEAD_SIZE..], tailDraws);
      r := head + tail;
      assert ordered == ordered[..MAX_MODE_HEAD_SIZE] + ordered[MAX_MODE_HEAD_SIZE..];
      HeadBeforeTail(ordered, head, tail);
    } else {
      r := ShuffledCopy(ordered, draws);
    }
  }

  /** Who is kept: exactly the members with a username or a phone (or everybody, when nobody is dropped). */
  lemma {:induction false} KeptAreReachable(members: seq<Member>, dropIdOnly: bool)
    ensures forall m :: multiset(Kept(members, dropIdOnly))[m]
                     == if !dropIdOnly || Text.Strip(m.username) != "" || Text.Strip(m.phone) != ""
                        then multiset(members)[m] else 0
  {
    if members != [] {
      KeptAreReachable(members[1..], dropIdOnly);
      assert members == [members[0]] + members[1..];
    }
  }

  lemma HeadBeforeTail(ordered: seq<Member>, head: seq<Member>, tail: seq<Member>)
    requires SortedByKey(ordered) && |head| <= |ordered|
    requires multiset(head) == multiset(ordered[..|head|]) && multiset(tail) == multiset(ordered[|head|..])
    ensures forall x, y :: x in head && y in tail ==> KeyLeq(KeyOf(x), KeyOf(y))
  {
    forall x, y | x in head && y in tail ensures KeyLeq(KeyOf(x), KeyOf(y)) {
      assert x in multiset(ordered[..|head|]) && y in multiset(ordered[|head|..]);
      var i :| 0 <= i < |head| && ordered[i] == x;
      var j :| 0 <= j < |ordered| - |head| && ordered[|head|..][j] == y;
      assert ordered[|head| + j] == y;
    }
  }
}
