/** The "account busy" table of account_state.py: a lease per phone that lapses after 45 minutes. */
module AccountLeases {
  import opened Common

  datatype Entry = Entry(tag: string, ts: real)

  const TTL: real := 2700.0

  type Table = map<string, Entry>

  predicate Expired(e: Entry, now: real) { now - e.ts > TTL }

  predicate Held(t: Table, phone: string, now: real) {
    phone in t && !Expired(t[phone], now)
  }

  /** A call; every call but Release reads the clock. */
  datatype Op =
    | MarkBusy(phone: string, tag: string, now: real)
    | Release(phone: string)
    | BusyLabel(phone: string, now: real)
    | AllBusy(now: real)

  datatype Answer =
    | Granted
    | Refused(owner: string)
    | Released
    | Label(tag: Option<string>)
    | Labels(tags: map<string, string>)

  function Labelled(t: Table, now: real): map<string, string> {
    map p | p in t && !Expired(t[p], now) :: t[p].tag
  }

  function Answered(t: Table, op: Op): Answer {
    match op
    case MarkBusy(p, _, now) => if Held(t, p, now) then Refused(t[p].tag) else Granted
    case Release(_) => Released
    case BusyLabel(p, now) => Label(if Held(t, p, now) then Some(t[p].tag) else None)
    case AllBusy(now) => Labels(Labelled(t, now))
  }

  /** The table after a call: reads drop the lapsed entries they come across. */
  function After(t: Table, op: Op): Table {
    match op
    case MarkBusy(p, tag, now) => if Held(t, p, now) then t else t[p := Entry(tag, now)]
    case Release(p) => t - {p}
    case BusyLabel(p, now) => if Held(t, p, now) then t else t - {p}
    case AllBusy(now) => map p | p in t && !Expired(t[p], now) :: t[p]
  }

  function AfterAll(t: Table, ops: seq<Op>): Table
    decreases |ops|
  {
    if ops == [] then t else AfterAll(After(t, ops[0]), ops[1..])
  }

  function Answers(t: Table, ops: seq<Op>): seq<Answer>
    decreases |ops|
  {
    if ops == [] then [] else [Answered(t, ops[0])] + Answers(After(t, ops[0]), ops[1..])
  }

  /** The clock readings of ops start at last or later and never go back. */
  ghost predicate ClockForward(last: real, ops: seq<Op>)
    decreases |ops|
  {
    ops == [] ||
    if ops[0].Release? then ClockForward(last, ops[1..])
    else last <= ops[0].now && ClockForward(ops[0].now, ops[1..])
  }

  function Latest(last: real, ops: seq<Op>): real
    decreases |ops|
  {
    if ops == [] then last else Latest(if ops[0].Release? then last else ops[0].now, ops[1..])
  }

  ghost predicate Unreleased(ops: seq<Op>, phone: string) {
    forall i :: 0 <= i < |ops| ==> ops[i] != Release(phone)
  }

  // ---------------------------------------------------------------- leases exclude each other in time

  lemma {:induction false} LeaseAges(t: Table, ops: seq<Op>, phone: string, granted: real, last: real)
    requires granted <= last
    requires (phone in t && t[phone].ts >= granted) || last - granted > TTL
    requires Unreleased(ops, phone) && ClockForward(last, ops)
    ensures last <= Latest(last, ops)
    ensures var t' := AfterAll(t, ops);
            (phone in t' && t'[phone].ts >= granted) || Latest(last, ops) - granted > TTL
    decreases |ops|
  {
    if ops != [] {
      assert ops[0] != Release(phone);
      LeaseAges(After(t, ops[0]), ops[1..], phone, granted, if ops[0].Release? then last else ops[0].now);
    }
  }

  /**
   * Two grants for one phone, with no release of it between them and a clock that does not go back, are
   * more than 45 minutes apart, whatever other calls (and other grants) come between.
   */
  lemma GrantsAreApart(t: Table, phone: string, tag: string, first: real, ops: seq<Op>, tag': string, second: real)
    requires Answered(t, MarkBusy(phone, tag, first)) == Granted
    requires Unreleased(ops, phone)
    requires ClockForward(first, ops) && Latest(first, ops) <= second
    requires Answered(AfterAll(After(t, MarkBusy(phone, tag, first)), ops), MarkBusy(phone, tag', second)) == Granted
    ensures second - first > 45.0 * 60.0
  {
    LeaseAges(After(t, MarkBusy(phone, tag, first)), ops, phone, first, first);
  }

  /** A read that found the entry of phone, stamped ts, lapsed, and so dropped it. */
  ghost predicate Swept(ops: seq<Op>, phone: string, ts: real) {
    exists i :: 0 <= i < |ops| && !ops[i].Release? && ops[i].now - ts > 45.0 * 60.0
             && (ops[i].AllBusy? || (ops[i].BusyLabel? && ops[i].phone == phone))
  }

  /** No release and no grant of phone happens during ops. */
  ghost predicate Undisturbed(t: Table, ops: seq<Op>, phone: string)
    decreases |ops|
  {
    ops == [] ||
    (&& ops[0] != Release(phone)
     && !(ops[0].MarkBusy? && ops[0].phone == phone && Answered(t, ops[0]) == Granted)
     && Undisturbed(After(t, ops[0]), ops[1..], phone))
  }

  lemma {:induction false} LeaseKept(t: Table, ops: seq<Op>, phone: string, e: Entry)
    requires phone in t && t[phone] == e && Undisturbed(t, ops, phone)
    ensures phone in AfterAll(t, ops) <==> !Swept(ops, phone, e.ts)
    ensures phone in AfterAll(t, ops) ==> AfterAll(t, ops)[phone] == e
    decreases |ops|
  {
    if ops != [] {
      var rest := ops[1..];
      var t' := After(t, ops[0]);
      if phone in t' {
        LeaseKept(t', rest, phone, e);
        if Swept(rest, phone, e.ts) {
          var i :| 0 <= i < |rest| && !rest[i].Release? && rest[i].now - e.ts > TTL
                && (rest[i].AllBusy? || (rest[i].BusyLabel? && rest[i].phone == phone));
          assert ops[i + 1] == rest[i];
        }
      } else {
        assert Swept(ops, phone, e.ts) by { assert ops[0].now - e.ts > TTL; }
        GoneStaysGone(t', rest, phone);
      }
    }
  }

  lemma {:induction false} GoneStaysGone(t: Table, ops: seq<Op>, phone: string)
    requires phone !in t && Undisturbed(t, ops, phone)
    ensures phone !in AfterAll(t, ops)
    decreases |ops|
  {
    if ops != [] {
      GoneStaysGone(After(t, ops[0]), ops[1..], phone);
    }
  }

  /**
   * For any clock: after a grant at first, and with no release or grant since, the next request is
   * granted exactly when 45 minutes have passed or some read, at a time it saw, found the lease lapsed.
   */
  lemma NextGrantIff(t: Table, phone: string, tag: string, first: real, ops: seq<Op>, tag': string, second: real)
    requires Answered(t, MarkBusy(phone, tag, first)) == Granted
    requires Undisturbed(After(t, MarkBusy(phone, tag, first)), ops, phone)
    ensures Answered(AfterAll(After(t, MarkBusy(phone, tag, first)), ops), MarkBusy(phone, tag', second)) == Granted
            <==> second - first > 45.0 * 60.0 || Swept(ops, phone, first)
  {
    LeaseKept(After(t, MarkBusy(phone, tag, first)), ops, phone, Entry(tag, first));
  }

  /** Why the clock must not go back: a read in the future drops a lease one second old. */
  lemma ClockBackBreaksLease()
    ensures var t1 := After(map[], MarkBusy("p", "a", 0.0));
            Answered(After(t1, AllBusy(3000.0)), MarkBusy("p", "b", 1.0)) == Granted
  {
    var t1 := After(map[], MarkBusy("p", "a", 0.0));
    assert Expired(t1["p"], 3000.0);
    assert "p" !in After(t1, AllBusy(3000.0));
  }

  /** A grant holds its phone, under its label, for 45 minutes, to every kind of question. */
  lemma GrantHolds(t: Table, phone: string, tag: string, first: real, tag': string, now: real)
    requires Answered(t, MarkBusy(phone, tag, first)) == Granted
    ensures var t' := After(t, MarkBusy(phone, tag, first));
            if now - first <= 45.0 * 60.0 then
              && Answered(t', MarkBusy(phone, tag', now)) == Refused(tag)
              && Answered(t', BusyLabel(phone, now)) == Label(Some(tag))
              && phone in Answered(t', AllBusy(now)).tags && Answered(t', AllBusy(now)).tags[phone] == tag
            else
              && Answered(t', MarkBusy(phone, tag', now)) == Granted
              && Answered(t', BusyLabel(phone, now)) == Label(None)
              && phone !in Answered(t', AllBusy(now)).tags
  {
  }

  /** A release frees its phone at once, and no other: the next request is granted, and others are unchanged. */
  lemma ReleaseFrees(t: Table, phone: string, other: string, tag: string, now: real)
    ensures Answered(After(t, Release(phone)), MarkBusy(phone, tag, now)) == Granted
    ensures Answered(After(t, Release(phone)), BusyLabel(phone, now)) == Label(None)
    ensures other != phone ==>
              && Answered(After(t, Release(phone)), MarkBusy(other, tag, now)) == Answered(t, MarkBusy(other, tag, now))
              && Answered(After(t, Release(phone)), BusyLabel(other, now)) == Answered(t, BusyLabel(other, now))
  {
  }

  // ---------------------------------------------------------------- dropping lapsed entries is invisible

  /** The same calls on a table whose reads drop nothing. */
  function KeepAfter(t: Table, op: Op): Table {
    if op.BusyLabel? || op.AllBusy? then t else After(t, op)
  }

  function KeepAnswers(t: Table, ops: seq<Op>): seq<Answer>
    decreases |ops|
  {
    if ops == [] then [] else [Answered(t, ops[0])] + KeepAnswers(KeepAfter(t, ops[0]), ops[1..])
  }

  /** u holds what t holds, and besides only entries that have lapsed by now. */
  ghost predicate SameLive(t: Table, u: Table, now: real) {
    && (forall p :: p in t ==> p in u && u[p] == t[p])
    && (forall p :: p in u && p !in t ==> Expired(u[p], now))
  }

  /** With a clock that does not go back, dropping lapsed entries during reads changes no answer, ever. */
  lemma {:induction false} SweepingIsInvisible(t: Table, u: Table, last: real, ops: seq<Op>)
    requires SameLive(t, u, last) && ClockForward(last, ops)
    ensures Answers(t, ops) == KeepAnswers(u, ops)
    decreases |ops|
  {
    if ops != [] {
      var op := ops[0];
      var now := if op.Release? then last else op.now;
      assert Answered(t, op) == Answered(u, op) by {
        if op.AllBusy? {
          assert Labelled(t, now) == Labelled(u, now);
        }
      }
      SweepingIsInvisible(After(t, op), KeepAfter(u, op), now, ops[1..]);
    }
  }

  // ---------------------------------------------------------------- the module's dictionary

  class AccountState {
    var busy: map<string, Entry>

    constructor ()
      ensures busy == map[]
    {
      busy := map[];
    }

    method MarkBusy(phone: string, tag: string, now: real) returns (owner: Option<string>)
      modifies this
      ensures busy == After(old(busy), Op.MarkBusy(phone, tag, now))
      ensures Answered(old(busy), Op.MarkBusy(phone, tag, now))
           == if owner.None? then Granted else Refused(owner.value)
    {
      if phone in busy && !Expired(busy[phone], now) {
        return Some(busy[phone].tag);
      }
      busy := busy[phone := Entry(tag, now)];
      owner := None;
    }

    method Release(phone: string)
      modifies this
      ensures busy == After(old(busy), Op.Release(phone))
    {
      busy := busy - {phone};
    }

    method BusyLabel(phone: string, now: real) returns (tag: Option<string>)
      modifies this
      ensures busy == After(old(busy), Op.BusyLabel(phone, now))
      ensures Label(tag) == Answered(old(busy), Op.BusyLabel(phone, now))
    {
      if phone in busy && !Expired(busy[phone], now) {
        return Some(busy[phone].tag);
      }
      busy := busy - {phone};
      tag := None;
    }

    method AllBusy(now: real) returns (tags: map<string, string>)
      modifies this
      ensures busy == After(old(busy), Op.AllBusy(now))
      ensures Labels(tags) == Answered(old(busy), Op.AllBusy(now))
    {
      var lapsed := set p | p in busy && Expired(busy[p], now);
      while lapsed != {}
        invariant lapsed <= busy.Keys <= old(busy).Keys
        invariant forall p :: p in busy ==> busy[p] == old(busy)[p]
        invariant forall p :: p in old(busy) ==> (p in lapsed || p !in busy <==> Expired(old(busy)[p], now))
      {
        var p :| p in lapsed;
        busy := busy - {p};
        lapsed := lapsed - {p};
      }
      tags := map p | p in busy :: busy[p].tag;
    }
  }
}
