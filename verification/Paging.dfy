/** The paging generators of scrape_api.py against a server whose lists do not change during the iteration. */
module Paging {
  import opened Common
  import opened PageScan

  /** How one request goes.  After the script every request is answered. */
  datatype Reply = Answered | FloodWait | Error

  predicate NoErrors(script: seq<Reply>) {
    forall i :: 0 <= i < |script| ==> !script[i].Error?
  }

  // ---------------------------------------------------------------- participants, by numeric offset

  /**
   * iter_participants_search: the members yielded, in order.  The server answers a request with its
   * members from offset on, at most limit of them; a flood makes the same request again.
   */
  method IterParticipants<T>(isChannel: bool, members: seq<T>, limit: nat, maxTotal: int, script: seq<Reply>)
    returns (yielded: seq<T>)
    requires limit > 0
    ensures yielded <= members && |yielded| <= CleanEnd(|members|, 0, maxTotal, limit)
    ensures !isChannel ==> yielded == []
    ensures isChannel && NoErrors(script) ==> yielded == members[..CleanEnd(|members|, 0, maxTotal, limit)]
  {
    yielded := [];
    if !isChannel {
      return;
    }
    var offset, requests := 0, 0;
    while offset < maxTotal
      invariant 0 <= offset <= |members| && yielded == members[..offset]
      invariant CleanEnd(|members|, offset, maxTotal, limit) == CleanEnd(|members|, 0, maxTotal, limit)
      invariant requests <= |script|
      decreases |script| - requests, |members| - offset
    {
      var reply := Answered;
      if requests < |script| {
        reply := script[requests];
        requests := requests + 1;
      }
      if reply.FloodWait? {
        continue;
      }
      if reply.Error? {
        return;
      }
      var users := members[offset..PageEnd(|members|, offset, limit)];
      if users == [] {
        return;
      }
      yielded := yielded + users;
      assert yielded == members[..offset + |users|];
      if |users| < limit {
        return;
      }
      offset := offset + |users|;
    }
  }

  /** In numbers: the first min(|L|, ceil(max_total / limit) * limit) members, so none is repeated. */
  lemma ParticipantsAreFirst<T>(members: seq<T>, limit: nat, maxTotal: int)
    requires limit > 0
    ensures |members[..CleanEnd(|members|, 0, maxTotal, limit)]|
         == var all := PagesFor(maxTotal, limit) * limit; if all < |members| then all else |members|
  {
    CleanEndIs(|members|, 0, maxTotal, limit);
  }

  // ---------------------------------------------------------------- reactors and voters, by next_offset

  /** A reaction or a vote: the ids it may carry, directly or in a peer.  0 counts as no id. */
  datatype Entry = Entry(userId: Option<int>, peerUser: Option<int>)

  datatype Page<U> = Page(entries: seq<Entry>, users: map<int, U>)

  datatype Kind = Reactors | Voters

  function PeerUserId(peer: Option<int>): Option<int> {
    if peer.Some? && peer.value != 0 then peer else None
  }

  /** Reactions carry a peer, which may be a channel; votes carry a user id or a peer. */
  function UidOf(kind: Kind, e: Entry): Option<int> {
    if kind.Voters? && e.userId.Some? && e.userId.value != 0 then e.userId else PeerUserId(e.peerUser)
  }

  /** Whom an entry is about: a vote's own user id before its peer, a reaction's peer; a zero is no id. */
  lemma UidMeans(e: Entry)
    ensures UidOf(Reactors, e) == if e.peerUser == Some(0) then None else e.peerUser
    ensures e.userId.Some? && e.userId != Some(0) ==> UidOf(Voters, e) == e.userId
    ensures e.userId.None? || e.userId == Some(0) ==>
              UidOf(Voters, e) == if e.peerUser == Some(0) then None else e.peerUser
  {
  }

  datatype Yield<U> = Yield(uid: int, user: Option<U>)

  function Lookup<U>(users: map<int, U>, uid: int): Option<U> {
    if uid in users then Some(users[uid]) else None
  }

  function Yields<U>(kind: Kind, users: map<int, U>, entries: seq<Entry>): seq<Yield<U>> {
    if entries == [] then []
    else
      var uid := UidOf(kind, entries[0]);
      (if uid.Some? then [Yield(uid.value, Lookup(users, uid.value))] else []) + Yields(kind, users, entries[1..])
  }

  /** Everything there is to yield: the user entries of the pages, up to the first page without entries. */
  function AllYields<U>(kind: Kind, pages: seq<Page<U>>): seq<Yield<U>> {
    if pages == [] || pages[0].entries == [] then []
    else Yields(kind, pages[0].users, pages[0].entries) + AllYields(kind, pages[1..])
  }

  /** How many of these entries are about a user. */
  function Named(kind: Kind, entries: seq<Entry>): nat {
    if entries == [] then 0 else (if UidOf(kind, entries[0]).Some? then 1 else 0) + Named(kind, entries[1..])
  }

  /** Each entry about a user is yielded in its turn, with the user's record if the page has one; no other is. */
  lemma {:induction false} EntryIsYielded<U>(kind: Kind, users: map<int, U>, entries: seq<Entry>, i: nat)
    requires i < |entries|
    ensures |Yields(kind, users, entries)| == Named(kind, entries)
    ensures UidOf(kind, entries[i]).Some? ==>
              var uid, k := UidOf(kind, entries[i]).value, Named(kind, entries[..i]);
              && k < |Yields(kind, users, entries)| && Yields(kind, users, entries)[k].uid == uid
              && Yields(kind, users, entries)[k].user == if uid in users then Some(users[uid]) else None
  {
    YieldsAreNamed(kind, users, entries);
    if i > 0 {
      EntryIsYielded(kind, users, entries[1..], i - 1);
      assert entries[..i][1..] == entries[1..][..i - 1];
    } else {
      assert entries[..0] == [];
    }
  }

  lemma {:induction false} YieldsAreNamed<U>(kind: Kind, users: map<int, U>, entries: seq<Entry>)
    ensures |Yields(kind, users, entries)| == Named(kind, entries)
  {
    if entries != [] {
      YieldsAreNamed(kind, users, entries[1..]);
    }
  }

  /** The pages count one after another, up to the first without entries, and what comes after it does not. */
  lemma {:induction false} PagesInOrder<U>(kind: Kind, pages: seq<Page<U>>, k: nat)
    requires k < |pages| && forall j :: 0 <= j < k ==> pages[j].entries != []
    ensures AllYields(kind, pages[..k + 1])
         == AllYields(kind, pages[..k]) + Yields(kind, pages[k].users, pages[k].entries)
    ensures pages[k].entries == [] ==> AllYields(kind, pages) == AllYields(kind, pages[..k])
  {
    if k == 0 {
      assert pages[..1][1..] == [] && pages[..0] == [];
      assert Yields(kind, pages[0].users, pages[0].entries) + [] == [] + Yields(kind, pages[0].users, pages[0].entries);
    } else {
      var rest := pages[1..];
      PagesInOrder(kind, rest, k - 1);
      assert pages[..k + 1][1..] == rest[..k] && pages[..k][1..] == rest[..k - 1];
      Regroup(Yields(kind, pages[0].users, pages[0].entries), AllYields(kind, rest[..k - 1]),
              Yields(kind, pages[k].users, pages[k].entries));
    }
  }

  /** The cap is tested after each yield, so one entry gets through whatever max_total is. */
  function Capped<U>(ys: seq<Yield<U>>, maxTotal: int): seq<Yield<U>> {
    var cap: nat := if maxTotal < 1 then 1 else maxTotal;
    if |ys| <= cap then ys else ys[..cap]
  }

  /** At most max_total entries are yielded exactly when max_total is positive, or zero with nothing to yield. */
  lemma CapIsKeptIff<U>(ys: seq<Yield<U>>, maxTotal: int)
    ensures Capped(ys, maxTotal) <= ys
    ensures |Capped(ys, maxTotal)| <= maxTotal <==> maxTotal >= 1 || (maxTotal == 0 && ys == [])
  {
  }

  lemma OneEntryOn<U>(kind: Kind, page: Page<U>, i: nat, before: seq<Yield<U>>)
    requires i < |page.entries|
    ensures before + Yields(kind, page.users, page.entries[i..])
         == var uid := UidOf(kind, page.entries[i]);
            before + (if uid.Some? then [Yield(uid.value, Lookup(page.users, uid.value))] else [])
            + Yields(kind, page.users, page.entries[i + 1..])
  {
    assert page.entries[i..][0] == page.entries[i] && page.entries[i..][1..] == page.entries[i + 1..];
  }

  /** One page of entries; done says that the cap has been reached. */
  method YieldPage<U>(kind: Kind, page: Page<U>, maxTotal: int, before: seq<Yield<U>>)
    returns (yielded: seq<Yield<U>>, done: bool)
    requires before == [] || |before| < maxTotal
    ensures var all := before + Yields(kind, page.users, page.entries);
            if done then yielded == Capped(all, maxTotal) && |yielded| >= maxTotal && yielded != []
            else yielded == all && (all == [] || |all| < maxTotal)
  {
    yielded := before;
    var i := 0;
    while i < |page.entries|
      invariant 0 <= i <= |page.entries|
      invariant yielded == [] || |yielded| < maxTotal
      invariant yielded + Yields(kind, page.users, page.entries[i..]) == before + Yields(kind, page.users, page.entries)
    {
      var uid := UidOf(kind, page.entries[i]);
      OneEntryOn(kind, page, i, yielded);
      i := i + 1;
      if uid.None? {
        continue;
      }
      ghost var rest := Yields(kind, page.users, page.entries[i..]);
      yielded := yielded + [Yield(uid.value, Lookup(page.users, uid.value))];
      if |yielded| >= maxTotal {
        assert (yielded + rest)[..|yielded|] == yielded;
        assert rest == [] ==> yielded + rest == yielded;
        done := true;
        return;
      }
    }
    assert page.entries[i..] == [];
    done := false;
  }

  /** all is what was yielded and what the pages from n on have, and the cap is not reached. */
  ghost predicate Underway<U>(kind: Kind, pages: seq<Page<U>>, n: nat, maxTotal: int, yielded: seq<Yield<U>>,
                              all: seq<Yield<U>>)
  {
    && n <= |pages| && yielded <= all && (yielded == [] || |yielded| < maxTotal)
    && yielded + AllYields(kind, pages[n..]) == all
  }

  lemma NothingYet<U>(kind: Kind, pages: seq<Page<U>>, maxTotal: int)
    ensures Underway(kind, pages, 0, maxTotal, [], AllYields(kind, pages))
  {
    assert pages[0..] == pages;
  }

  /** The end, by the list or by the cap. */
  ghost predicate Complete<U>(maxTotal: int, yielded: seq<Yield<U>>, all: seq<Yield<U>>) {
    yielded == Capped(all, maxTotal) && yielded <= all && (|yielded| <= 1 || |yielded| <= maxTotal)
  }

  /** Nothing is left to yield from page n on: the generator has yielded everything, under the cap. */
  lemma AllYielded<U>(kind: Kind, pages: seq<Page<U>>, n: nat, maxTotal: int, yielded: seq<Yield<U>>,
                      all: seq<Yield<U>>)
    requires Underway(kind, pages, n, maxTotal, yielded, all) && (n == |pages| || pages[n].entries == [])
    ensures Complete(maxTotal, yielded, all)
  {
    assert n < |pages| ==> pages[n..][0] == pages[n];
    assert yielded + [] == yielded;
  }

  /**
   * iter_message_reactors and iter_poll_voters: the server hands out its pages one after another, each
   * but the last with a next offset.
   */
  method IterEntries<U>(kind: Kind, pages: seq<Page<U>>, maxTotal: int, script: seq<Reply>)
    returns (yielded: seq<Yield<U>>)
    ensures yielded <= AllYields(kind, pages)
    ensures NoErrors(script) ==> yielded == Capped(AllYields(kind, pages), maxTotal)
    ensures |yielded| <= 1 || |yielded| <= maxTotal
  {
    yielded := [];
    var offset: Option<nat> := None;
    var requests := 0;
    ghost var at: nat := 0;
    ghost var all := AllYields(kind, pages);
    NothingYet(kind, pages, maxTotal);
    while true
      invariant if offset.None? then at == 0 else at == offset.value < |pages|
      invariant Underway(kind, pages, at, maxTotal, yielded, all)
      invariant requests <= |script|
      decreases |script| - requests, |pages| - at
    {
      var reply := Answered;
      if requests < |script| {
        reply := script[requests];
        requests := requests + 1;
      }
      if reply.FloodWait? {
        continue;
      }
      if reply.Error? {
        return;
      }
      var n := if offset.Some? then offset.value else 0;
      if n >= |pages| || pages[n].entries == [] {
        AllYielded(kind, pages, at, maxTotal, yielded, all);
        return;
      }
      var done;
      yielded, done := YieldNextPage(kind, pages, n, maxTotal, yielded, all);
      if done {
        return;
      }
      if n + 1 >= |pages| {
        AllYielded(kind, pages, n + 1, maxTotal, yielded, all);
        return;
      }
      at, offset := n + 1, Some(n + 1);
    }
  }

  /** Page number n, when before and the pages from n on are everything there is to yield. */
  method YieldNextPage<U>(kind: Kind, pages: seq<Page<U>>, n: nat, maxTotal: int, before: seq<Yield<U>>,
                          ghost all: seq<Yield<U>>)
    returns (yielded: seq<Yield<U>>, done: bool)
    requires n < |pages| && pages[n].entries != [] && Underway(kind, pages, n, maxTotal, before, all)
    ensures done ==> Complete(maxTotal, yielded, all)
    ensures !done ==> Underway(kind, pages, n + 1, maxTotal, yielded, all)
  {
    OnePageOn(kind, pages, n, before);
    ghost var here := before + Yields(kind, pages[n].users, pages[n].entries);
    yielded, done := YieldPage(kind, pages[n], maxTotal, before);
    if done {
      CappedEarly(here, AllYields(kind, pages[n + 1..]), maxTotal);
    }
  }

  lemma OnePageOn<U>(kind: Kind, pages: seq<Page<U>>, n: nat, before: seq<Yield<U>>)
    requires n < |pages| && pages[n].entries != []
    ensures before + AllYields(kind, pages[n..])
         == before + Yields(kind, pages[n].users, pages[n].entries) + AllYields(kind, pages[n + 1..])
  {
    assert pages[n..][0] == pages[n] && pages[n..][1..] == pages[n + 1..];
  }

  /** Once the cap is reached within the first part, what follows does not matter. */
  lemma CappedEarly<U>(ys: seq<Yield<U>>, zs: seq<Yield<U>>, maxTotal: int)
    requires |Capped(ys, maxTotal)| >= maxTotal && Capped(ys, maxTotal) != []
    ensures Capped(ys + zs, maxTotal) == Capped(ys, maxTotal) && Capped(ys, maxTotal) <= ys + zs
  {
    var cap: nat := if maxTotal < 1 then 1 else maxTotal;
    assert (ys + zs)[..cap] == ys[..cap];
  }
}
