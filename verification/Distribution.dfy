/** How _execute_parallel_direct_add (bot.py) deals the ids out to the accounts. */
module Distribution {
  import opened Common

  type Counts = map<string, int>

  ghost predicate Covers(m: Counts, phones: seq<string>) {
    forall p :: p in phones ==> p in m
  }

  ghost predicate Distinct(phones: seq<string>) {
    forall i, j :: 0 <= i < j < |phones| ==> phones[i] != phones[j]
  }

  // ---------------------------------------------------------------- the reference: who gets the next id

  /** The account with the most room; among equals the first. */
  function Best(phones: seq<string>, caps: Counts, given: Counts): (b: string)
    requires phones != [] && Covers(caps, phones) && Covers(given, phones)
    ensures b in phones
  {
    var n := |phones| - 1;
    if n == 0 then phones[0]
    else
      var b := Best(phones[..n], caps, given);
      if caps[phones[n]] - given[phones[n]] > caps[b] - given[b] then phones[n] else b
  }

  lemma {:induction false} BestHasMostRoom(phones: seq<string>, caps: Counts, given: Counts)
    requires phones != [] && Covers(caps, phones) && Covers(given, phones)
    ensures var b := Best(phones, caps, given);
            forall i :: 0 <= i < |phones| ==> caps[phones[i]] - given[phones[i]] <= caps[b] - given[b]
  {
    var n := |phones| - 1;
    if n > 0 {
      BestHasMostRoom(phones[..n], caps, given);
      forall i | 0 <= i < n ensures phones[i] == phones[..n][i] {
      }
    }
  }

  /** b has more room than every one of these. */
  ghost predicate RoomierThan(phones: seq<string>, caps: Counts, given: Counts, b: string)
    requires Covers(caps, phones) && Covers(given, phones) && b in caps && b in given
  {
    forall i :: 0 <= i < |phones| ==> caps[phones[i]] - given[phones[i]] < caps[b] - given[b]
  }

  lemma RoomierThanBest(phones: seq<string>, caps: Counts, given: Counts, p: string)
    requires phones != [] && Covers(caps, phones) && Covers(given, phones) && p in caps && p in given
    requires var b := Best(phones, caps, given); caps[p] - given[p] > caps[b] - given[b]
    ensures RoomierThan(phones, caps, given, p)
  {
    BestHasMostRoom(phones, caps, given);
  }

  ghost predicate FirstWithMost(phones: seq<string>, caps: Counts, given: Counts, b: string)
    requires Covers(caps, phones) && Covers(given, phones) && b in caps && b in given
  {
    exists k :: 0 <= k < |phones| && phones[k] == b && RoomierThan(phones[..k], caps, given, b)
  }

  lemma FirstStays(front: seq<string>, p: string, caps: Counts, given: Counts, b: string)
    requires Covers(caps, front + [p]) && Covers(given, front + [p]) && b in caps && b in given
    requires Covers(caps, front) && Covers(given, front) && FirstWithMost(front, caps, given, b)
    ensures FirstWithMost(front + [p], caps, given, b)
  {
    var k :| 0 <= k < |front| && front[k] == b && RoomierThan(front[..k], caps, given, b);
    assert (front + [p])[k] == b && (front + [p])[..k] == front[..k];
  }

  lemma LastIsFirst(front: seq<string>, p: string, caps: Counts, given: Counts)
    requires Covers(caps, front + [p]) && Covers(given, front + [p]) && p in caps && p in given
    requires Covers(caps, front) && Covers(given, front) && RoomierThan(front, caps, given, p)
    ensures FirstWithMost(front + [p], caps, given, p)
  {
    assert (front + [p])[|front|] == p && (front + [p])[..|front|] == front;
  }

  lemma BestOfMore(front: seq<string>, p: string, caps: Counts, given: Counts)
    requires front != [] && Covers(caps, front + [p]) && Covers(given, front + [p])
    ensures Covers(caps, front) && Covers(given, front) && p in caps && p in given
    ensures var b := Best(front, caps, given);
            Best(front + [p], caps, given) == if caps[p] - given[p] > caps[b] - given[b] then p else b
  {
    assert (front + [p])[..|front|] == front && (front + [p])[|front|] == p;
    assert forall q :: q in front ==> q in front + [p];
    assert p in front + [p];
  }

  /** Among equals the first: every account listed before it has less room. */
  lemma {:induction false} BestIsFirst(phones: seq<string>, caps: Counts, given: Counts)
    requires phones != [] && Covers(caps, phones) && Covers(given, phones)
    ensures FirstWithMost(phones, caps, given, Best(phones, caps, given))
  {
    var n := |phones| - 1;
    var front, p := phones[..n], phones[n];
    assert phones == front + [p];
    if front == [] {
      LastIsFirst(front, p, caps, given);
    } else {
      BestOfMore(front, p, caps, given);
      var b := Best(front, caps, given);
      if caps[p] - given[p] > caps[b] - given[b] {
        RoomierThanBest(front, caps, given, p);
        LastIsFirst(front, p, caps, given);
      } else {
        BestIsFirst(front, caps, given);
        FirstStays(front, p, caps, given, b);
      }
    }
  }

  /** The accounts that the first ids go to, one by one, until n ids are dealt or nobody has room. */
  function Owners(phones: seq<string>, caps: Counts, given: Counts, n: nat): seq<string>
    requires Covers(caps, phones) && Covers(given, phones)
    decreases n
  {
    if n == 0 || phones == [] then []
    else
      var b := Best(phones, caps, given);
      if given[b] >= caps[b] then [] else [b] + Owners(phones, caps, given[b := given[b] + 1], n - 1)
  }

  lemma OwnersUnfold(phones: seq<string>, caps: Counts, given: Counts, n: nat)
    requires Covers(caps, phones) && Covers(given, phones) && n > 0 && phones != []
    ensures var b := Best(phones, caps, given);
            Owners(phones, caps, given, n)
            == if given[b] >= caps[b] then [] else [b] + Owners(phones, caps, given[b := given[b] + 1], n - 1)
  {
  }

  /** The ids that go to p. */
  function Share(ids: seq<int>, owners: seq<string>, p: string): seq<int>
    requires |ids| == |owners|
  {
    if ids == [] then []
    else Share(ids[..|ids| - 1], owners[..|ids| - 1], p) + (if owners[|ids| - 1] == p then [ids[|ids| - 1]] else [])
  }

  function IsOwner(p: string): string -> int { o => if o == p then 1 else 0 }

  /** How many of the owners are p. */
  function Load(owners: seq<string>, p: string): int { Total(IsOwner(p), owners) }

  function Room(caps: Counts, given: Counts): string -> int {
    p => if p in caps && p in given && caps[p] > given[p] then caps[p] - given[p] else 0
  }

  // ---------------------------------------------------------------- what the deal achieves

  lemma {:induction false} TotalDropsByOne(f: string -> int, g: string -> int, phones: seq<string>, b: string)
    requires Distinct(phones) && b in phones && g(b) == f(b) - 1
    requires forall p :: p in phones && p != b ==> g(p) == f(p)
    ensures Total(g, phones) == Total(f, phones) - 1
  {
    assert phones == [phones[0]] + phones[1..];
    if phones[0] == b {
      TotalSame(f, g, phones[1..]);
    } else {
      TotalDropsByOne(f, g, phones[1..], b);
    }
  }

  lemma {:induction false} TotalSame(f: string -> int, g: string -> int, phones: seq<string>)
    requires forall p :: p in phones ==> g(p) == f(p)
    ensures Total(g, phones) == Total(f, phones)
  {
    if phones != [] {
      TotalSame(f, g, phones[1..]);
    }
  }

  lemma {:induction false} NoRoomAtAll(phones: seq<string>, caps: Counts, given: Counts)
    requires Covers(caps, phones) && Covers(given, phones)
    requires forall p :: p in phones ==> caps[p] <= given[p]
    ensures Total(Room(caps, given), phones) == 0
  {
    if phones != [] {
      NoRoomAtAll(phones[1..], caps, given);
    }
  }

  /** As many ids are dealt as there are, or as there is room for, whichever is less. */
  lemma {:induction false} DealtIsMinimum(phones: seq<string>, caps: Counts, given: Counts, n: nat)
    requires Distinct(phones) && Covers(caps, phones) && Covers(given, phones)
    ensures var room := Total(Room(caps, given), phones);
            room >= 0 && |Owners(phones, caps, given, n)| == if n <= room then n else room
    decreases n
  {
    RoomIsNonNegative(caps, given, phones);
    if n > 0 && phones != [] {
      var b := Best(phones, caps, given);
      if given[b] >= caps[b] {
        BestHasMostRoom(phones, caps, given);
        NoRoomAtAll(phones, caps, given);
      } else {
        var next := given[b := given[b] + 1];
        TotalDropsByOne(Room(caps, given), Room(caps, next), phones, b);
        DealtIsMinimum(phones, caps, next, n - 1);
      }
    }
  }

  lemma {:induction false} RoomIsNonNegative(caps: Counts, given: Counts, phones: seq<string>)
    ensures Total(Room(caps, given), phones) >= 0
  {
    if phones != [] {
      RoomIsNonNegative(caps, given, phones[1..]);
    }
  }

  /** Nobody is over capacity, and nobody has over one more free place than somebody who was given work. */
  ghost predicate Fair(phones: seq<string>, caps: Counts, given: Counts)
    requires Covers(caps, phones) && Covers(given, phones)
  {
    && (forall p :: p in phones ==> 0 <= given[p] && (given[p] > 0 ==> given[p] <= caps[p]))
    && (forall p, q :: p in phones && q in phones && given[q] > 0 ==>
          caps[p] - given[p] <= caps[q] - given[q] + 1)
  }

  function Loaded(given: Counts, owners: seq<string>): Counts {
    map p | p in given :: given[p] + Load(owners, p)
  }

  lemma LoadedStep(given: Counts, b: string, rest: seq<string>)
    requires b in given
    ensures Loaded(given, [b] + rest) == Loaded(given[b := given[b] + 1], rest)
  {
    assert ([b] + rest)[1..] == rest;
  }

  /** What is left after dealing to these accounts. */
  function RoomLeft(caps: Counts, given: Counts, dealt: seq<string>, p: string): int
    requires p in caps && p in given
  {
    caps[p] - given[p] - Load(dealt, p)
  }

  lemma RoomAfterOne(caps: Counts, given: Counts, b: string, dealt: seq<string>, p: string)
    requires b in given && p in given && p in caps
    ensures RoomLeft(caps, given, [b] + dealt, p) == RoomLeft(caps, given[b := given[b] + 1], dealt, p)
  {
    assert ([b] + dealt)[1..] == dealt;
  }

  /** Id number k goes to an account with room, and none has more room at that moment. */
  ghost predicate GreedyAt(phones: seq<string>, caps: Counts, given: Counts, owners: seq<string>, k: nat)
    requires Covers(caps, phones) && Covers(given, phones) && k < |owners|
  {
    && owners[k] in phones && RoomLeft(caps, given, owners[..k], owners[k]) > 0
    && forall p :: p in phones ==>
         RoomLeft(caps, given, owners[..k], p) <= RoomLeft(caps, given, owners[..k], owners[k])
  }

  lemma GreedyStep(phones: seq<string>, caps: Counts, given: Counts, b: string, rest: seq<string>, k: nat)
    requires Covers(caps, phones) && Covers(given, phones) && b in phones && k < |rest|
    requires GreedyAt(phones, caps, given[b := given[b] + 1], rest, k)
    ensures GreedyAt(phones, caps, given, [b] + rest, k + 1)
  {
    var owners := [b] + rest;
    assert owners[..k + 1] == [b] + rest[..k];
    forall p | p in phones
      ensures RoomLeft(caps, given, owners[..k + 1], p) == RoomLeft(caps, given[b := given[b] + 1], rest[..k], p)
    {
      RoomAfterOne(caps, given, b, rest[..k], p);
    }
  }

  lemma FirstIsGreedy(phones: seq<string>, caps: Counts, given: Counts, rest: seq<string>)
    requires Covers(caps, phones) && Covers(given, phones) && phones != []
    requires var b := Best(phones, caps, given); given[b] < caps[b]
    ensures GreedyAt(phones, caps, given, [Best(phones, caps, given)] + rest, 0)
  {
    BestHasMostRoom(phones, caps, given);
    assert ([Best(phones, caps, given)] + rest)[..0] == [];
  }

  /** Every id goes to an account that has the most room at that moment. */
  lemma {:induction false} DealIsGreedy(phones: seq<string>, caps: Counts, given: Counts, n: nat, k: nat)
    requires Covers(caps, phones) && Covers(given, phones) && k < |Owners(phones, caps, given, n)|
    ensures GreedyAt(phones, caps, given, Owners(phones, caps, given, n), k)
    decreases n
  {
    var b := Best(phones, caps, given);
    OwnersUnfold(phones, caps, given, n);
    var given' := given[b := given[b] + 1];
    var rest := Owners(phones, caps, given', n - 1);
    assert Owners(phones, caps, given, n) == [b] + rest && given[b] < caps[b];
    if k == 0 {
      FirstIsGreedy(phones, caps, given, rest);
    } else {
      DealIsGreedy(phones, caps, given', n - 1, k - 1);
      GreedyStep(phones, caps, given, b, rest, k - 1);
    }
  }

  /** The deal ends before the ids do only when nobody has any room left. */
  lemma {:induction false} DealGoesOnWhileRoom(phones: seq<string>, caps: Counts, given: Counts, n: nat)
    requires Covers(caps, phones) && Covers(given, phones) && |Owners(phones, caps, given, n)| < n
    ensures forall p :: p in phones ==> RoomLeft(caps, given, Owners(phones, caps, given, n), p) <= 0
    decreases n
  {
    if phones != [] {
      var b := Best(phones, caps, given);
      OwnersUnfold(phones, caps, given, n);
      BestHasMostRoom(phones, caps, given);
      if given[b] < caps[b] {
        var rest := Owners(phones, caps, given[b := given[b] + 1], n - 1);
        DealGoesOnWhileRoom(phones, caps, given[b := given[b] + 1], n - 1);
        forall p | p in phones ensures RoomLeft(caps, given, [b] + rest, p) <= 0 {
          RoomAfterOne(caps, given, b, rest, p);
        }
      }
    }
  }

  lemma GiveOneStaysFair(phones: seq<string>, caps: Counts, given: Counts, b: string)
    requires phones != [] && Covers(caps, phones) && Covers(given, phones) && Fair(phones, caps, given)
    requires b == Best(phones, caps, given) && given[b] < caps[b]
    ensures Covers(given[b := given[b] + 1], phones) && Fair(phones, caps, given[b := given[b] + 1])
  {
    BestHasMostRoom(phones, caps, given);
  }

  ghost predicate FairDeal(phones: seq<string>, caps: Counts, given: Counts)
    requires Covers(caps, phones)
  {
    Covers(given, phones) && Fair(phones, caps, given)
  }

  /** How many ids each account has been given when the deal is over. */
  function Outcome(phones: seq<string>, caps: Counts, given: Counts, n: nat): Counts
    requires Covers(caps, phones) && Covers(given, phones)
    decreases n
  {
    if n == 0 || phones == [] then given
    else
      var b := Best(phones, caps, given);
      if given[b] >= caps[b] then given else Outcome(phones, caps, given[b := given[b] + 1], n - 1)
  }

  lemma OutcomeUnfolds(phones: seq<string>, caps: Counts, given: Counts, n: nat)
    requires Covers(caps, phones) && Covers(given, phones) && n > 0 && phones != []
    ensures var b := Best(phones, caps, given);
            Outcome(phones, caps, given, n)
            == if given[b] >= caps[b] then given else Outcome(phones, caps, given[b := given[b] + 1], n - 1)
  {
  }

  lemma {:induction false} OutcomeIsFair(phones: seq<string>, caps: Counts, given: Counts, n: nat)
    requires Covers(caps, phones) && Covers(given, phones) && Fair(phones, caps, given)
    ensures FairDeal(phones, caps, Outcome(phones, caps, given, n))
    decreases n
  {
    if n > 0 && phones != [] {
      var b := Best(phones, caps, given);
      var given' := given[b := given[b] + 1];
      OutcomeUnfolds(phones, caps, given, n);
      if given[b] < caps[b] {
        GiveOneStaysFair(phones, caps, given, b);
        OutcomeIsFair(phones, caps, given', n - 1);
        assert Outcome(phones, caps, given, n) == Outcome(phones, caps, given', n - 1);
      }
    }
  }

  lemma {:induction false} OutcomeIsLoad(phones: seq<string>, caps: Counts, given: Counts, n: nat)
    requires Covers(caps, phones) && Covers(given, phones)
    ensures Outcome(phones, caps, given, n) == Loaded(given, Owners(phones, caps, given, n))
    decreases n
  {
    if n == 0 || phones == [] {
      LoadedWithNothing(given);
    } else {
      OwnersUnfold(phones, caps, given, n);
      var b := Best(phones, caps, given);
      if given[b] >= caps[b] {
        LoadedWithNothing(given);
      } else {
        OutcomeIsLoad(phones, caps, given[b := given[b] + 1], n - 1);
        LoadedStep(given, b, Owners(phones, caps, given[b := given[b] + 1], n - 1));
      }
    }
  }

  lemma LoadedWithNothing(given: Counts)
    ensures Loaded(given, []) == given
  {
  }

  lemma {:induction false} OwnersAreAccounts(phones: seq<string>, caps: Counts, given: Counts, n: nat)
    requires Covers(caps, phones) && Covers(given, phones)
    ensures forall o :: o in Owners(phones, caps, given, n) ==> o in phones
    decreases n
  {
    if n > 0 && phones != [] {
      var b := Best(phones, caps, given);
      OwnersAreAccounts(phones, caps, given[b := given[b] + 1], n - 1);
    }
  }

  function Zero(phones: seq<string>): Counts { map p | p in phones :: 0 }

  /**
   * The whole deal: its size, whose shares they are, that no account is over its capacity, and that the
   * accounts that got work end up within one free place of the roomiest.
   */
  lemma DealIsCompleteAndBalanced(phones: seq<string>, caps: Counts, n: nat)
    requires Distinct(phones) && Covers(caps, phones)
    ensures var owners := Owners(phones, caps, Zero(phones), n);
            && (forall o :: o in owners ==> o in phones)
            && |owners| == (var room := Total(Room(caps, Zero(phones)), phones); if n <= room then n else room)
            && (forall p :: p in phones ==> Load(owners, p) <= if caps[p] > 0 then caps[p] else 0)
            && (forall p, q :: p in phones && q in phones && Load(owners, q) > 0 ==>
                  caps[p] - Load(owners, p) <= caps[q] - Load(owners, q) + 1)
  {
    var owners := Owners(phones, caps, Zero(phones), n);
    DealtIsMinimum(phones, caps, Zero(phones), n);
    OutcomeIsFair(phones, caps, Zero(phones), n);
    OutcomeIsLoad(phones, caps, Zero(phones), n);
    OwnersAreAccounts(phones, caps, Zero(phones), n);
    assert forall p :: p in phones ==> Loaded(Zero(phones), owners)[p] == Load(owners, p);
  }

  /** A share holds its owner's ids in their order: as many as the load, and each id only where it was dealt. */
  lemma {:induction false} ShareOf(ids: seq<int>, owners: seq<string>, p: string)
    requires |ids| == |owners|
    ensures |Share(ids, owners, p)| == Load(owners, p)
    ensures forall x :: x in Share(ids, owners, p) <==> exists i :: 0 <= i < |ids| && ids[i] == x && owners[i] == p
  {
    if ids != [] {
      var n := |ids| - 1;
      ShareOf(ids[..n], owners[..n], p);
      assert owners == owners[..n] + [owners[n]];
      TotalAppend(IsOwner(p), owners[..n], owners[n]);
      forall x | x in Share(ids, owners, p) ensures exists i :: 0 <= i < |ids| && ids[i] == x && owners[i] == p {
        if x in Share(ids[..n], owners[..n], p) {
          var i :| 0 <= i < n && ids[..n][i] == x && owners[..n][i] == p;
          assert ids[i] == x && owners[i] == p;
        }
      }
      forall i | 0 <= i < |ids| && owners[i] == p ensures ids[i] in Share(ids, owners, p) {
        if i < n {
          assert ids[..n][i] == ids[i] && owners[..n][i] == p;
        }
      }
    }
  }

  function LoadOf(owners: seq<string>): string -> int { p => Load(owners, p) }

  lemma {:induction false} OneOwnerMore(phones: seq<string>, owners: seq<string>, o: string)
    requires Distinct(phones)
    ensures Total(LoadOf(owners + [o]), phones) == Total(LoadOf(owners), phones) + (if o in phones then 1 else 0)
  {
    if phones != [] {
      TotalAppend(IsOwner(phones[0]), owners, o);
      OneOwnerMore(phones[1..], owners, o);
      assert phones == [phones[0]] + phones[1..];
    }
  }

  /** No id is lost or dealt twice: the loads of the accounts add up to the ids dealt. */
  lemma {:induction false} LoadsAddUp(phones: seq<string>, owners: seq<string>)
    requires Distinct(phones) && forall o :: o in owners ==> o in phones
    ensures Total(LoadOf(owners), phones) == |owners|
  {
    if owners == [] {
      NoLoad(phones);
    } else {
      var n := |owners| - 1;
      assert owners == owners[..n] + [owners[n]];
      LoadsAddUp(phones, owners[..n]);
      OneOwnerMore(phones, owners[..n], owners[n]);
    }
  }

  lemma {:induction false} NoLoad(phones: seq<string>)
    ensures Total(LoadOf([]), phones) == 0
  {
    if phones != [] {
      NoLoad(phones[1..]);
    }
  }

  // ---------------------------------------------------------------- the loop over the ids

  /** The first account with the most room, by one pass over the list. */
  method FindBest(phones: seq<string>, caps: Counts, given: Counts) returns (b: string)
    requires phones != [] && Covers(caps, phones) && Covers(given, phones)
    ensures b == Best(phones, caps, given)
  {
    b := phones[0];
    assert phones[..1] == [phones[0]];
    var i := 1;
    while i < |phones|
      invariant 1 <= i <= |phones|
      invariant b == Best(phones[..i], caps, given)
    {
      assert phones[..i + 1][..i] == phones[..i];
      if caps[phones[i]] - given[phones[i]] > caps[b] - given[b] {
        b := phones[i];
      }
      i := i + 1;
    }
    assert phones[..i] == phones;
  }

  /** The fallback search, entered only when the roomiest account is full: it never finds anybody. */
  method FallbackSearch(order: seq<string>, phones: seq<string>, caps: Counts, given: Counts)
    returns (found: bool, who: string)
    requires Covers(caps, phones) && Covers(given, phones) && (forall p :: p in order ==> p in phones)
    requires phones != [] && given[Best(phones, caps, given)] >= caps[Best(phones, caps, given)]
    ensures !found
  {
    found, who := false, "";
    BestHasMostRoom(phones, caps, given);
    var i := 0;
    while i < |order| && !found
      invariant 0 <= i <= |order|
      invariant !found
    {
      var p := order[i];
      if given[p] < caps[p] {
        found, who := true, p;
      }
      i := i + 1;
    }
  }

  /** Each account's batch so far is its share of the ids dealt so far. */
  ghost predicate Dealt(batches: map<string, seq<int>>, phones: seq<string>, ids: seq<int>, owners: seq<string>) {
    && |owners| <= |ids|
    && batches.Keys == (set p | p in phones)
    && forall p :: p in phones ==> batches[p] == Share(ids[..|owners|], owners, p)
  }

  lemma DealtStep(batches: map<string, seq<int>>, phones: seq<string>, ids: seq<int>, owners: seq<string>, b: string)
    requires Dealt(batches, phones, ids, owners) && |owners| < |ids| && b in phones
    ensures Dealt(batches[b := batches[b] + [ids[|owners|]]], phones, ids, owners + [b])
  {
    var i := |owners|;
    assert ids[..i + 1][..i] == ids[..i];
    assert (owners + [b])[..i] == owners;
  }

  /** The owners so far, and those still to come from here, are the owners of the whole deal. */
  ghost predicate OnCourse(all: seq<string>, owners: seq<string>, phones: seq<string>, caps: Counts, given: Counts,
                           left: nat)
  {
    Covers(caps, phones) && Covers(given, phones) && all == owners + Owners(phones, caps, given, left)
  }

  lemma CourseStep(all: seq<string>, owners: seq<string>, phones: seq<string>, caps: Counts, given: Counts, left: nat)
    requires OnCourse(all, owners, phones, caps, given, left) && left > 0 && phones != []
    ensures var b := Best(phones, caps, given);
            && (given[b] >= caps[b] ==> all == owners)
            && (given[b] < caps[b] ==> OnCourse(all, owners + [b], phones, caps, given[b := given[b] + 1], left - 1))
  {
    OwnersUnfold(phones, caps, given, left);
  }

  lemma CourseEnds(all: seq<string>, owners: seq<string>, phones: seq<string>, caps: Counts, given: Counts)
    requires OnCourse(all, owners, phones, caps, given, 0)
    ensures all == owners
  {
  }

  /** Who gets the next id, if anybody has room. */
  method Choose(phones: seq<string>, caps: Counts, given: Counts, order: seq<string>,
                ghost all: seq<string>, ghost owners: seq<string>, ghost left: nat)
    returns (full: bool, best: string)
    requires phones != [] && left > 0 && OnCourse(all, owners, phones, caps, given, left)
    requires forall p :: p in order ==> p in phones
    ensures best in phones
    ensures full ==> all == owners
    ensures !full ==> OnCourse(all, owners + [best], phones, caps, given[best := given[best] + 1], left - 1)
  {
    CourseStep(all, owners, phones, caps, given, left);
    best := FindBest(phones, caps, given);
    full := false;
    if given[best] >= caps[best] {
      var found, who := FallbackSearch(order, phones, caps, given);
      full := !found;
      if found {
        best := who;
      }
    }
  }

  /** One turn of the loop: deal id number i, or find that nobody has room. */
  method DealOne(ids: seq<int>, phones: seq<string>, caps: Counts, order: seq<string>,
                 batches: map<string, seq<int>>, given: Counts, i: nat, ghost all: seq<string>,
                 ghost owners: seq<string>)
    returns (full: bool, batches': map<string, seq<int>>, given': Counts, ghost owners': seq<string>)
    requires phones != [] && i < |ids| && |owners| == i && (forall p :: p in order ==> p in phones)
    requires Dealt(batches, phones, ids, owners) && OnCourse(all, owners, phones, caps, given, |ids| - i)
    ensures full ==> all == owners == owners' && batches' == batches
    ensures !full ==> |owners'| == i + 1 && Dealt(batches', phones, ids, owners')
    ensures !full ==> OnCourse(all, owners', phones, caps, given', |ids| - (i + 1))
  {
    ghost var left: nat := |ids| - i;
    var best;
    full, best := Choose(phones, caps, given, order, all, owners, left);
    batches', given', owners' := batches, given, owners;
    if !full {
      DealtStep(batches, phones, ids, owners, best);
      batches' := batches[best := batches[best] + [ids[i]]];
      given' := given[best := given[best] + 1];
      owners' := owners + [best];
      assert left - 1 == |ids| - (i + 1);
    }
  }

  /** Before anything is dealt. */
  lemma DealStarts(batches: map<string, seq<int>>, phones: seq<string>, caps: Counts, ids: seq<int>)
    requires Covers(caps, phones) && batches.Keys == (set p | p in phones)
    requires forall p :: p in phones ==> batches[p] == []
    ensures Dealt(batches, phones, ids, [])
    ensures OnCourse(Owners(phones, caps, Zero(phones), |ids|), [], phones, caps, Zero(phones), |ids|)
  {
  }

  /** The loop over the ids, when all is who gets them in the whole deal. */
  method DealAll(ids: seq<int>, phones: seq<string>, caps: Counts, order: seq<string>,
                 batches0: map<string, seq<int>>, given0: Counts, ghost all: seq<string>)
    returns (batches: map<string, seq<int>>)
    requires phones != [] && (forall p :: p in order ==> p in phones)
    requires Dealt(batches0, phones, ids, []) && OnCourse(all, [], phones, caps, given0, |ids|)
    ensures Dealt(batches, phones, ids, all)
  {
    batches := batches0;
    var given, i := given0, 0;
    ghost var owners: seq<string> := [];
    while i < |ids|
      invariant i <= |ids| && |owners| == i
      invariant Dealt(batches, phones, ids, owners)
      invariant OnCourse(all, owners, phones, caps, given, |ids| - i)
    {
      var full;
      full, batches, given, owners := DealOne(ids, phones, caps, order, batches, given, i, all, owners);
      if full {
        return;
      }
      i := i + 1;
    }
    CourseEnds(all, owners, phones, caps, given);
  }

  /**
   * The batches: each account's is its share of a prefix of the ids, dealt as Owners says.  None is the
   * crash on ids with no accounts at all.  order is the order in which the fallback looks at the accounts.
   */
  method Distribute(ids: seq<int>, phones: seq<string>, caps: Counts, order: seq<string>)
    returns (r: Option<map<string, seq<int>>>)
    requires Distinct(phones) && Covers(caps, phones) && (forall p :: p in order ==> p in phones)
    ensures r == None <==> ids != [] && phones == []
    ensures r.Some? ==> Dealt(r.value, phones, ids, Owners(phones, caps, Zero(phones), |ids|))
  {
    var batches: map<string, seq<int>> := map p | p in phones :: [];
    DealStarts(batches, phones, caps, ids);
    if phones == [] {
      return if ids == [] then Some(batches) else None;
    }
    batches := DealAll(ids, phones, caps, order, batches, Zero(phones), Owners(phones, caps, Zero(phones), |ids|));
    r := Some(batches);
  }
}
