/** The deep-history scan on values: which stretches of messages it reads, and what is noted on the way. */
module DeepScan {
  import opened Common
  import opened Harvester
  import opened PageScan

  /** What a message is noted for, to be asked about later. */
  datatype Kind = Reactions | Polls

  predicate Has(m: Message, kind: Kind) { if kind.Reactions? then m.reactions else m.poll }

  /** The ids noted while reading ms, in order. */
  function NotedIds(ms: seq<Message>, kind: Kind): seq<int> {
    if ms == [] then [] else (if Has(ms[0], kind) then [ms[0].id] else []) + NotedIds(ms[1..], kind)
  }

  /** The messages of ms that are to be asked about. */
  function IdSet(ms: seq<Message>, kind: Kind): set<int> {
    if ms == [] then {} else (if Has(ms[0], kind) then {ms[0].id} else {}) + IdSet(ms[1..], kind)
  }

  function Elems(ids: seq<int>): set<int> {
    if ids == [] then {} else {ids[0]} + Elems(ids[1..])
  }

  lemma {:induction false} ElemsConcat(xs: seq<int>, ys: seq<int>)
    ensures Elems(xs + ys) == Elems(xs) + Elems(ys)
  {
    if xs == [] {
      assert xs + ys == ys;
    } else {
      assert (xs + ys)[1..] == xs[1..] + ys;
      ElemsConcat(xs[1..], ys);
    }
  }

  lemma {:induction false} IdSetConcat(xs: seq<Message>, ys: seq<Message>, kind: Kind)
    ensures IdSet(xs + ys, kind) == IdSet(xs, kind) + IdSet(ys, kind)
  {
    if xs == [] {
      assert xs + ys == ys;
    } else {
      assert (xs + ys)[1..] == xs[1..] + ys;
      IdSetConcat(xs[1..], ys, kind);
    }
  }

  /** ids names the messages ids0 does, and those of ms that are to be asked about. */
  ghost predicate NotesOf(ids: seq<int>, ids0: seq<int>, ms: seq<Message>, kind: Kind) {
    Elems(ids) == Elems(ids0) + IdSet(ms, kind)
  }

  /** How one attempt to read a batch goes: completely, or cut short after some messages. */
  datatype Attempt =
    | Full
    | Flood(after: nat)
    | Broken(after: nat)
    | Stopped(after: nat)

  /** The attempts of a run, in order; after the script every attempt is complete. */
  predicate OnlyFloods(script: seq<Attempt>) {
    forall i :: 0 <= i < |script| ==> script[i].Full? || script[i].Flood?
  }

  /** How far an attempt gets into a batch of the given size. */
  function GotOf(attempt: Attempt, size: nat): nat {
    if attempt.Full? || attempt.after > size then size else attempt.after
  }

  /** One attempt: how far it reads, where the scan stands then, the attempts still to come, and whether it is over. */
  datatype Turn = Turn(upto: nat, next: nat, later: seq<Attempt>, over: bool)

  function TurnOf(n: nat, at: nat, batch: nat, script: seq<Attempt>): (t: Turn)
    requires at <= n
    ensures at <= t.next <= t.upto <= n
    ensures |t.later| < |script| || (t.later == script && (t.over || t.next > at))
  {
    var attempt := if script == [] then Full else script[0];
    var later := if script == [] then [] else script[1..];
    var upto := at + GotOf(attempt, PageEnd(n, at, batch) - at);
    if attempt.Flood? then Turn(upto, at, later, false)
    else if attempt.Broken? || upto == at then Turn(upto, at, later, true)
    else Turn(upto, upto, later, attempt.Stopped?)
  }

  function Further(reach: nat, upto: nat): nat { if upto > reach then upto else reach }

  /**
   * Where a scan of n messages stands, the furthest it has read, and the stretches read so far, one for
   * each attempt, after the whole script.
   */
  function Scan(n: nat, at: nat, reach: nat, parts: seq<(nat, nat)>, limit: int, batch: nat, script: seq<Attempt>)
    : (nat, nat, seq<(nat, nat)>)
    requires at <= n
    decreases |script|, n - at
  {
    if at >= limit then (at, reach, parts)
    else
      var t := TurnOf(n, at, batch, script);
      var reach', parts' := Further(reach, t.upto), parts + [(at, t.upto)];
      if t.over then (t.next, reach', parts') else Scan(n, t.next, reach', parts', limit, batch, t.later)
  }

  lemma ScanUnfolds(n: nat, at: nat, reach: nat, parts: seq<(nat, nat)>, limit: int, batch: nat, script: seq<Attempt>)
    requires at <= n && at < limit
    ensures var t := TurnOf(n, at, batch, script);
            var reach', parts' := Further(reach, t.upto), parts + [(at, t.upto)];
            Scan(n, at, reach, parts, limit, batch, script)
            == if t.over then (t.next, reach', parts') else Scan(n, t.next, reach', parts', limit, batch, t.later)
  {
  }

  /** The stretches a scan reads from here on. */
  function Reads(n: nat, at: nat, limit: int, batch: nat, script: seq<Attempt>): seq<(nat, nat)>
    requires at <= n
    decreases |script|, n - at
  {
    if at >= limit then []
    else
      var t := TurnOf(n, at, batch, script);
      [(at, t.upto)] + if t.over then [] else Reads(n, t.next, limit, batch, t.later)
  }

  predicate Within(parts: seq<(nat, nat)>, at: nat, n: nat) {
    forall k :: 0 <= k < |parts| ==> at <= parts[k].0 <= parts[k].1 <= n
  }

  lemma {:induction false} ReadsWithin(n: nat, at: nat, limit: int, batch: nat, script: seq<Attempt>)
    requires at <= n
    ensures Within(Reads(n, at, limit, batch, script), at, n)
    decreases |script|, n - at
  {
    if at < limit {
      var t := TurnOf(n, at, batch, script);
      if !t.over {
        ReadsWithin(n, t.next, limit, batch, t.later);
      }
    }
  }

  /** One turn of a clean scan and of one that only floods interrupt. */
  lemma TurnEnds(n: nat, at: nat, limit: int, batch: nat, script: seq<Attempt>)
    requires batch > 0 && at <= n && at < limit
    ensures var t := TurnOf(n, at, batch, script);
            && t.upto <= CleanEnd(n, at, limit, batch)
            && (!t.over ==> t.upto <= CleanEnd(n, t.next, limit, batch) == CleanEnd(n, at, limit, batch))
            && (OnlyFloods(script) ==> OnlyFloods(t.later) && (t.over ==> at == n))
  {
  }

  /** No scan reads beyond a clean one, and one that only floods interrupt ends where a clean one does. */
  lemma {:induction false} ScanEnds(n: nat, at: nat, reach: nat, parts: seq<(nat, nat)>, limit: int, batch: nat,
                                    script: seq<Attempt>)
    requires batch > 0 && at <= n && at <= reach <= CleanEnd(n, at, limit, batch)
    ensures var (scanned, r, _) := Scan(n, at, reach, parts, limit, batch, script);
            && scanned <= r <= CleanEnd(n, at, limit, batch)
            && (OnlyFloods(script) ==> scanned == r == CleanEnd(n, at, limit, batch))
    decreases |script|, n - at
  {
    if at < limit {
      var t := TurnOf(n, at, batch, script);
      TurnEnds(n, at, limit, batch, script);
      if !t.over {
        ScanEnds(n, t.next, Further(reach, t.upto), parts + [(at, t.upto)], limit, batch, t.later);
      }
    }
  }

  lemma {:induction false} ScanReads(n: nat, at: nat, reach: nat, parts: seq<(nat, nat)>, limit: int, batch: nat,
                                     script: seq<Attempt>)
    requires at <= n
    ensures Scan(n, at, reach, parts, limit, batch, script).2 == parts + Reads(n, at, limit, batch, script)
    decreases |script|, n - at
  {
    if at < limit {
      var t := TurnOf(n, at, batch, script);
      var here := [(at, t.upto)];
      if t.over {
        assert here + [] == here;
      } else {
        ScanReads(n, t.next, Further(reach, t.upto), parts + here, limit, batch, t.later);
        Regroup(parts, here, Reads(n, t.next, limit, batch, t.later));
      }
    }
  }

  lemma ScanFromStart(n: nat, limit: int, batch: nat, script: seq<Attempt>)
    ensures Scan(n, 0, 0, [], limit, batch, script).2 == Reads(n, 0, limit, batch, script)
  {
    ScanReads(n, 0, 0, [], limit, batch, script);
    assert [] + Reads(n, 0, limit, batch, script) == Reads(n, 0, limit, batch, script);
  }

  /**
   * Stretch number k of a scan, by the attempt that made it.  It goes on to the end of its batch, or to where
   * the attempt was cut short.  A flood makes the next one start where this one did, and otherwise the next
   * starts where this one ended; an error or a stop, nothing read without a flood, or the limit ends the scan.
   */
  ghost predicate StretchIs(n: nat, limit: int, batch: nat, script: seq<Attempt>, parts: seq<(nat, nat)>, k: nat)
    requires k < |parts|
  {
    var attempt := if k < |script| then script[k] else Full;
    var (from, upto) := parts[k];
    var whole := if from + batch < n then from + batch else n;
    var next := if attempt.Flood? then from else upto;
    && upto == (if attempt.Full? || from + attempt.after > whole then whole else from + attempt.after)
    && (k + 1 < |parts| ==> parts[k + 1].0 == next)
    && (k + 1 == |parts|
        <==> attempt.Broken? || attempt.Stopped? || (upto == from && !attempt.Flood?) || next >= limit)
  }

  lemma FirstStretch(n: nat, at: nat, limit: int, batch: nat, script: seq<Attempt>)
    requires at <= n && at < limit
    ensures var parts := Reads(n, at, limit, batch, script);
            |parts| > 0 && parts[0].0 == at && StretchIs(n, limit, batch, script, parts, 0)
  {
    var t := TurnOf(n, at, batch, script);
    if !t.over {
      var later := Reads(n, t.next, limit, batch, t.later);
      assert Reads(n, at, limit, batch, script) == [(at, t.upto)] + later;
      assert later != [] <==> t.next < limit;
    }
  }

  /** The stretches of any scan that starts below its limit: from where it starts, one attempt each. */
  lemma {:induction false} StretchesAre(n: nat, at: nat, limit: int, batch: nat, script: seq<Attempt>, k: nat)
    requires at <= n && k < |Reads(n, at, limit, batch, script)|
    ensures var parts := Reads(n, at, limit, batch, script);
            parts[0].0 == at && StretchIs(n, limit, batch, script, parts, k)
    decreases k
  {
    FirstStretch(n, at, limit, batch, script);
    if k > 0 {
      var t := TurnOf(n, at, batch, script);
      var later := Reads(n, t.next, limit, batch, t.later);
      assert Reads(n, at, limit, batch, script) == [(at, t.upto)] + later;
      StretchesAre(n, t.next, limit, batch, t.later, k - 1);
      assert k < |script| ==> t.later[k - 1] == script[k];
    }
  }

  /** In numbers: a flooded scan reads min(|rest|, batches needed for limit times the batch size) messages. */
  lemma ScanEndIs(n: nat, limit: int, batch: nat)
    requires batch > 0
    ensures CleanEnd(n, 0, limit, batch)
         == var all := PagesFor(limit, batch) * batch; if all < n then all else n
  {
    CleanEndIs(n, 0, limit, batch);
  }

  // ---------------------------------------------------------------- what is noted

  lemma {:induction false} NotedOneMore(ms: seq<Message>, m: Message, kind: Kind)
    ensures NotedIds(ms + [m], kind) == NotedIds(ms, kind) + (if Has(m, kind) then [m.id] else [])
  {
    if ms == [] {
      assert (ms + [m])[1..] == [];
    } else {
      var first := if Has(ms[0], kind) then [ms[0].id] else [];
      var last := if Has(m, kind) then [m.id] else [];
      assert (ms + [m])[1..] == ms[1..] + [m];
      NotedOneMore(ms[1..], m, kind);
      Regroup(first, NotedIds(ms[1..], kind), last);
    }
  }

  lemma NotedNext(ms: seq<Message>, n: nat, kind: Kind)
    requires n < |ms|
    ensures NotedIds(ms[..n + 1], kind) == NotedIds(ms[..n], kind) + (if Has(ms[n], kind) then [ms[n].id] else [])
  {
    assert ms[..n + 1] == ms[..n] + [ms[n]];
    NotedOneMore(ms[..n], ms[n], kind);
  }

  lemma {:induction false} NotedElems(ms: seq<Message>, kind: Kind)
    ensures Elems(NotedIds(ms, kind)) == IdSet(ms, kind)
  {
    if ms != [] {
      NotedElems(ms[1..], kind);
      ElemsConcat(if Has(ms[0], kind) then [ms[0].id] else [], NotedIds(ms[1..], kind));
    }
  }

  lemma IdSetBetween(ms: seq<Message>, a: nat, b: nat, c: nat, kind: Kind)
    requires a <= b <= c <= |ms|
    ensures IdSet(ms[a..c], kind) == IdSet(ms[a..b], kind) + IdSet(ms[b..c], kind)
  {
    SliceJoin(ms, a, b, c);
    IdSetConcat(ms[a..b], ms[b..c], kind);
  }

  lemma IdsReadAgain(ms: seq<Message>, a: nat, b: nat, c: nat, kind: Kind)
    requires a <= b <= |ms| && a <= c <= |ms|
    ensures IdSet(ms[..b], kind) + IdSet(ms[a..c], kind) == IdSet(ms[..if c > b then c else b], kind)
  {
    IdSetBetween(ms, 0, a, b, kind);
    if c > b {
      IdSetBetween(ms, 0, b, c, kind);
      IdSetBetween(ms, a, b, c, kind);
    } else {
      IdSetBetween(ms, a, c, b, kind);
    }
    assert ms[0..a] == ms[..a] && ms[0..b] == ms[..b];
    assert c > b ==> ms[0..c] == ms[..c];
  }

  /** Reading on from a after having read up to b notes what a clean pass to wherever that got notes. */
  lemma NotesAgain(ids: seq<int>, ids': seq<int>, ids0: seq<int>, ms: seq<Message>, a: nat, b: nat, c: nat, d: nat,
                   kind: Kind)
    requires a <= b <= |ms| && a <= c <= |ms| && NotesOf(ids, ids0, ms[..b], kind)
    requires ids' == ids + NotedIds(ms[a..c], kind) && d == if c > b then c else b
    ensures NotesOf(ids', ids0, ms[..d], kind)
  {
    NotedElems(ms[a..c], kind);
    IdsReadAgain(ms, a, b, c, kind);
    ElemsConcat(ids, NotedIds(ms[a..c], kind));
  }

  /** What is noted while reading these stretches one after another, and how many messages that is. */
  function NotedOver(ms: seq<Message>, parts: seq<(nat, nat)>, kind: Kind): seq<int>
    requires Within(parts, 0, |ms|)
  {
    if parts == [] then []
    else NotedIds(ms[parts[0].0..parts[0].1], kind) + NotedOver(ms, parts[1..], kind)
  }

  function ReadLength(parts: seq<(nat, nat)>): int {
    if parts == [] then 0 else parts[0].1 - parts[0].0 + ReadLength(parts[1..])
  }

  lemma {:induction false} NotedOverOneMore(ms: seq<Message>, parts: seq<(nat, nat)>, a: nat, b: nat, kind: Kind)
    requires Within(parts, 0, |ms|) && a <= b <= |ms|
    ensures Within(parts + [(a, b)], 0, |ms|)
    ensures NotedOver(ms, parts + [(a, b)], kind) == NotedOver(ms, parts, kind) + NotedIds(ms[a..b], kind)
    ensures ReadLength(parts + [(a, b)]) == ReadLength(parts) + b - a
  {
    if parts == [] {
      assert (parts + [(a, b)])[1..] == [];
    } else {
      assert (parts + [(a, b)])[1..] == parts[1..] + [(a, b)];
      NotedOverOneMore(ms, parts[1..], a, b, kind);
      Regroup(NotedIds(ms[parts[0].0..parts[0].1], kind), NotedOver(ms, parts[1..], kind), NotedIds(ms[a..b], kind));
    }
  }

  // ---------------------------------------------------------------- what is noted twice

  ghost predicate NoRepeats(ids: seq<int>) {
    forall i, j :: 0 <= i < j < |ids| ==> ids[i] != ids[j]
  }

  ghost predicate DistinctIds(ms: seq<Message>) {
    forall i, j :: 0 <= i < j < |ms| ==> ms[i].id != ms[j].id
  }

  lemma NoRepeatsConcat(xs: seq<int>, ys: seq<int>)
    ensures NoRepeats(xs + ys) <==> NoRepeats(xs) && NoRepeats(ys) && forall id :: id in xs ==> id !in ys
  {
    var zs := xs + ys;
    if NoRepeats(zs) {
      forall i, j | 0 <= i < j < |xs| ensures xs[i] != xs[j] {
        assert zs[i] != zs[j];
      }
      forall i, j | 0 <= i < j < |ys| ensures ys[i] != ys[j] {
        assert zs[|xs| + i] != zs[|xs| + j];
      }
      forall id | id in xs ensures id !in ys {
        var i :| 0 <= i < |xs| && xs[i] == id;
        forall j | 0 <= j < |ys| ensures ys[j] != id {
          assert zs[i] != zs[|xs| + j];
        }
      }
    } else {
      var i, j :| 0 <= i < j < |zs| && zs[i] == zs[j];
      if i < |xs| <= j {
        assert xs[i] in xs && ys[j - |xs|] in ys;
      } else if j < |xs| {
        assert xs[i] == xs[j];
      } else {
        assert ys[i - |xs|] == ys[j - |xs|];
      }
    }
  }

  /** Message number i of ms is noted as id. */
  predicate NotedAs(ms: seq<Message>, i: int, kind: Kind, id: int) {
    0 <= i < |ms| && Has(ms[i], kind) && ms[i].id == id
  }

  lemma {:induction false} NotedAre(ms: seq<Message>, kind: Kind, id: int)
    ensures id in NotedIds(ms, kind) <==> exists i :: NotedAs(ms, i, kind, id)
  {
    if ms != [] {
      NotedAre(ms[1..], kind, id);
      if i :| NotedAs(ms[1..], i, kind, id) {
        assert NotedAs(ms, i + 1, kind, id);
      }
      if i :| NotedAs(ms, i, kind, id) {
        assert i > 0 ==> NotedAs(ms[1..], i - 1, kind, id);
      }
      if Has(ms[0], kind) && ms[0].id == id {
        assert NotedAs(ms, 0, kind, id);
      }
    }
  }

  lemma {:induction false} NotedOnce(ms: seq<Message>, kind: Kind)
    requires DistinctIds(ms)
    ensures NoRepeats(NotedIds(ms, kind))
  {
    if ms != [] {
      NotedOnce(ms[1..], kind);
      NotedAre(ms[1..], kind, ms[0].id);
      assert forall i :: !NotedAs(ms[1..], i, kind, ms[0].id);
      NoRepeatsConcat(if Has(ms[0], kind) then [ms[0].id] else [], NotedIds(ms[1..], kind));
    }
  }

  /** Message number p, which has what it is to be noted for, lies in the stretch. */
  predicate NotedIn(ms: seq<Message>, part: (nat, nat), p: int, kind: Kind) {
    part.0 <= p < part.1 && p < |ms| && Has(ms[p], kind)
  }

  lemma NotedInPart(ms: seq<Message>, part: (nat, nat), p: int, kind: Kind)
    requires DistinctIds(ms) && part.0 <= part.1 <= |ms| && 0 <= p < |ms| && Has(ms[p], kind)
    ensures ms[p].id in NotedIds(ms[part.0..part.1], kind) <==> NotedIn(ms, part, p, kind)
  {
    var page := ms[part.0..part.1];
    NotedAre(page, kind, ms[p].id);
    if i :| NotedAs(page, i, kind, ms[p].id) {
      assert page[i] == ms[part.0 + i];
    }
    if NotedIn(ms, part, p, kind) {
      assert NotedAs(page, p - part.0, kind, ms[p].id);
    }
  }

  /** Some stretch of parts has message p. */
  ghost predicate NotedInSome(ms: seq<Message>, parts: seq<(nat, nat)>, p: int, kind: Kind) {
    exists k :: 0 <= k < |parts| && NotedIn(ms, parts[k], p, kind)
  }

  lemma {:induction false} NotedInParts(ms: seq<Message>, parts: seq<(nat, nat)>, p: int, kind: Kind)
    requires DistinctIds(ms) && Within(parts, 0, |ms|) && 0 <= p < |ms| && Has(ms[p], kind)
    ensures ms[p].id in NotedOver(ms, parts, kind) <==> NotedInSome(ms, parts, p, kind)
  {
    if parts != [] {
      NotedInPart(ms, parts[0], p, kind);
      NotedInParts(ms, parts[1..], p, kind);
      SomeOrLater(ms, parts, p, kind);
    }
  }

  lemma SomeOrLater(ms: seq<Message>, parts: seq<(nat, nat)>, p: int, kind: Kind)
    requires parts != []
    ensures NotedInSome(ms, parts, p, kind)
       <==> NotedIn(ms, parts[0], p, kind) || NotedInSome(ms, parts[1..], p, kind)
  {
    if k :| 0 <= k < |parts| && NotedIn(ms, parts[k], p, kind) {
      assert k > 0 ==> parts[1..][k - 1] == parts[k];
    }
    if k :| 0 <= k < |parts[1..]| && NotedIn(ms, parts[1..][k], p, kind) {
      assert parts[k + 1] == parts[1..][k];
    }
  }

  lemma SharedIsNotedTwice(ms: seq<Message>, part: (nat, nat), parts: seq<(nat, nat)>, p: int, kind: Kind)
    requires DistinctIds(ms) && part.0 <= part.1 <= |ms| && Within(parts, 0, |ms|)
    requires NotedIn(ms, part, p, kind) && NotedInSome(ms, parts, p, kind)
    ensures ms[p].id in NotedIds(ms[part.0..part.1], kind) && ms[p].id in NotedOver(ms, parts, kind)
  {
    NotedInPart(ms, part, p, kind);
    NotedInParts(ms, parts, p, kind);
  }

  lemma NotedTwiceIsShared(ms: seq<Message>, part: (nat, nat), parts: seq<(nat, nat)>, id: int, kind: Kind)
    returns (p: int)
    requires DistinctIds(ms) && part.0 <= part.1 <= |ms| && Within(parts, 0, |ms|)
    requires id in NotedIds(ms[part.0..part.1], kind) && id in NotedOver(ms, parts, kind)
    ensures NotedIn(ms, part, p, kind) && NotedInSome(ms, parts, p, kind)
  {
    var page := ms[part.0..part.1];
    NotedAre(page, kind, id);
    var i :| NotedAs(page, i, kind, id);
    p := part.0 + i;
    assert ms[p] == page[i];
    NotedInParts(ms, parts, p, kind);
  }

  /** The first stretch notes nothing that later ones note exactly when they have no such message in common. */
  lemma FirstApart(ms: seq<Message>, part: (nat, nat), parts: seq<(nat, nat)>, kind: Kind)
    requires DistinctIds(ms) && part.0 <= part.1 <= |ms| && Within(parts, 0, |ms|)
    ensures (forall id :: id in NotedIds(ms[part.0..part.1], kind) ==> id !in NotedOver(ms, parts, kind))
       <==> forall p :: !(NotedIn(ms, part, p, kind) && NotedInSome(ms, parts, p, kind))
  {
    var first, later := NotedIds(ms[part.0..part.1], kind), NotedOver(ms, parts, kind);
    if p :| NotedIn(ms, part, p, kind) && NotedInSome(ms, parts, p, kind) {
      SharedIsNotedTwice(ms, part, parts, p, kind);
      assert ms[p].id in first && ms[p].id in later;
    }
    if id :| id in first && id in later {
      var p := NotedTwiceIsShared(ms, part, parts, id, kind);
    }
  }

  /** Two stretches have a message in common that is to be noted. */
  ghost predicate ReadTwice(ms: seq<Message>, parts: seq<(nat, nat)>, kind: Kind) {
    exists a, b, p :: 0 <= a < b < |parts| && NotedIn(ms, parts[a], p, kind) && NotedIn(ms, parts[b], p, kind)
  }

  lemma ReadTwiceByFirst(ms: seq<Message>, parts: seq<(nat, nat)>, kind: Kind)
    requires parts != []
    ensures ReadTwice(ms, parts, kind)
       <==> || ReadTwice(ms, parts[1..], kind)
            || exists p :: NotedIn(ms, parts[0], p, kind) && NotedInSome(ms, parts[1..], p, kind)
  {
    var later := parts[1..];
    if ReadTwice(ms, parts, kind) {
      var a, b, p :| 0 <= a < b < |parts| && NotedIn(ms, parts[a], p, kind) && NotedIn(ms, parts[b], p, kind);
      assert later[b - 1] == parts[b];
      if a > 0 {
        assert later[a - 1] == parts[a];
      } else {
        assert NotedInSome(ms, later, p, kind);
      }
    }
    if ReadTwice(ms, later, kind) {
      var a, b, p :| 0 <= a < b < |later| && NotedIn(ms, later[a], p, kind) && NotedIn(ms, later[b], p, kind);
      assert parts[a + 1] == later[a] && parts[b + 1] == later[b];
    }
    if p :| NotedIn(ms, parts[0], p, kind) && NotedInSome(ms, later, p, kind) {
      var k :| 0 <= k < |later| && NotedIn(ms, later[k], p, kind);
      assert parts[k + 1] == later[k];
    }
  }

  lemma PartHasDistinctIds(ms: seq<Message>, a: nat, b: nat)
    requires DistinctIds(ms) && a <= b <= |ms|
    ensures DistinctIds(ms[a..b])
  {
  }

  /**
   * The sets are those of a clean pass, but the lists need not be.  Reading any stretches one after another
   * notes some message twice, to be asked about twice, exactly when two of them have one in common that has
   * what it is noted for.
   */
  lemma {:induction false} NotesRepeatIff(ms: seq<Message>, parts: seq<(nat, nat)>, kind: Kind)
    requires DistinctIds(ms) && Within(parts, 0, |ms|)
    ensures NoRepeats(NotedOver(ms, parts, kind)) <==> !ReadTwice(ms, parts, kind)
  {
    if parts != [] {
      var (a, b) := parts[0];
      PartHasDistinctIds(ms, a, b);
      NotedOnce(ms[a..b], kind);
      NotesRepeatIff(ms, parts[1..], kind);
      NoRepeatsConcat(NotedIds(ms[a..b], kind), NotedOver(ms, parts[1..], kind));
      FirstApart(ms, parts[0], parts[1..], kind);
      ReadTwiceByFirst(ms, parts, kind);
    }
  }

  /** Some attempt of the scan that a flood cut short had read a message that is to be noted. */
  ghost predicate FloodedAfterNote(ms: seq<Message>, at: nat, limit: int, batch: nat, script: seq<Attempt>, kind: Kind)
    requires at <= |ms|
    decreases |script|, |ms| - at
  {
    at < limit &&
    var t := TurnOf(|ms|, at, batch, script);
    || (script != [] && script[0].Flood? && NotesSome(ms, (at, t.upto), kind))
    || (!t.over && FloodedAfterNote(ms, t.next, limit, batch, t.later, kind))
  }

  ghost predicate NotesSome(ms: seq<Message>, part: (nat, nat), kind: Kind) {
    exists p :: NotedIn(ms, part, p, kind)
  }

  /** However often a flood interrupts it, a batch is read to its end at last. */
  lemma {:induction false} BatchIsReadAtLast(n: nat, at: nat, limit: int, batch: nat, script: seq<Attempt>)
    requires at <= n && at < limit && OnlyFloods(script)
    ensures (at, PageEnd(n, at, batch)) in Reads(n, at, limit, batch, script)
    decreases |script|
  {
    if script != [] && script[0].Flood? {
      BatchIsReadAtLast(n, at, limit, batch, script[1..]);
    }
  }

  lemma OneMorePart(ms: seq<Message>, part: (nat, nat), parts: seq<(nat, nat)>, kind: Kind)
    ensures ReadTwice(ms, [part] + parts, kind)
       <==> ReadTwice(ms, parts, kind) || exists p :: NotedIn(ms, part, p, kind) && NotedInSome(ms, parts, p, kind)
  {
    assert ([part] + parts)[1..] == parts;
    ReadTwiceByFirst(ms, [part] + parts, kind);
  }

  lemma NothingAgain(ms: seq<Message>, a: nat, b: nat, parts: seq<(nat, nat)>, kind: Kind)
    requires Within(parts, b, |ms|)
    ensures forall p :: NotedIn(ms, (a, b), p, kind) ==> !NotedInSome(ms, parts, p, kind)
  {
  }

  /** What an interrupted attempt had read of a batch is read again. */
  lemma RereadHasAll(ms: seq<Message>, at: nat, upto: nat, limit: int, batch: nat, later: seq<Attempt>, kind: Kind)
    requires at <= |ms| && at < limit && OnlyFloods(later) && upto <= PageEnd(|ms|, at, batch)
    ensures forall p :: NotedIn(ms, (at, upto), p, kind) ==>
              NotedInSome(ms, Reads(|ms|, at, limit, batch, later), p, kind)
  {
    BatchIsReadAtLast(|ms|, at, limit, batch, later);
    var parts := Reads(|ms|, at, limit, batch, later);
    var k :| 0 <= k < |parts| && parts[k] == (at, PageEnd(|ms|, at, batch));
    forall p | NotedIn(ms, (at, upto), p, kind) ensures NotedInSome(ms, parts, p, kind) {
      assert NotedIn(ms, parts[k], p, kind);
    }
  }

  /** What a turn has read is read again exactly after a flood. */
  lemma TurnReadsAgain(ms: seq<Message>, at: nat, limit: int, batch: nat, script: seq<Attempt>, kind: Kind)
    requires at <= |ms| && at < limit && OnlyFloods(script)
    ensures var t := TurnOf(|ms|, at, batch, script);
            !t.over ==>
              var parts := Reads(|ms|, t.next, limit, batch, t.later);
              (exists p :: NotedIn(ms, (at, t.upto), p, kind) && NotedInSome(ms, parts, p, kind))
              <==> script != [] && script[0].Flood? && NotesSome(ms, (at, t.upto), kind)
  {
    var t := TurnOf(|ms|, at, batch, script);
    if !t.over {
      if script != [] && script[0].Flood? {
        RereadHasAll(ms, at, t.upto, limit, batch, t.later, kind);
      } else {
        ReadsWithin(|ms|, t.upto, limit, batch, t.later);
        NothingAgain(ms, at, t.upto, Reads(|ms|, t.upto, limit, batch, t.later), kind);
      }
    }
  }

  lemma {:induction false} FloodsReadTwiceIff(ms: seq<Message>, at: nat, limit: int, batch: nat, script: seq<Attempt>,
                                              kind: Kind)
    requires at <= |ms| && OnlyFloods(script)
    ensures ReadTwice(ms, Reads(|ms|, at, limit, batch, script), kind)
       <==> FloodedAfterNote(ms, at, limit, batch, script, kind)
    decreases |script|, |ms| - at
  {
    if at < limit {
      var t := TurnOf(|ms|, at, batch, script);
      TurnReadsAgain(ms, at, limit, batch, script, kind);
      if !t.over {
        FloodsReadTwiceIff(ms, t.next, limit, batch, t.later, kind);
        OneMorePart(ms, (at, t.upto), Reads(|ms|, t.next, limit, batch, t.later), kind);
      }
    }
  }

  /**
   * For a whole scan that only floods interrupt: some message is noted twice exactly when an attempt that a
   * flood cut short had read one with what it is noted for.
   */
  lemma FloodsRepeatNotesIff(ms: seq<Message>, limit: int, batch: nat, script: seq<Attempt>, kind: Kind)
    requires DistinctIds(ms) && OnlyFloods(script)
    ensures var parts := Reads(|ms|, 0, limit, batch, script);
            Within(parts, 0, |ms|)
            && (!NoRepeats(NotedOver(ms, parts, kind)) <==> FloodedAfterNote(ms, 0, limit, batch, script, kind))
  {
    ReadsWithin(|ms|, 0, limit, batch, script);
    NotesRepeatIff(ms, Reads(|ms|, 0, limit, batch, script), kind);
    FloodsReadTwiceIff(ms, 0, limit, batch, script, kind);
  }
}
