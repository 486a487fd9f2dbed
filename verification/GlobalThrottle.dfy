/**
 * The global minimum gap between invitations (add_engine.py, global_throttle), for any number of
 * concurrent callers.  Each caller draws an interval for its mode, queues for the lock, and inside it
 * sleeps until that interval after the last stamp, then stamps and leaves.  The lock is handed to the
 * waiters in any order, and a sleeper may wake late.
 */
module GlobalThrottle {
  import opened Common

  datatype Mode = Max | Ultra | Fast | Safe | Unknown

  function Lo(m: Mode): real {
    match m
    case Max => 0.6
    case Ultra => 1.4
    case Fast => 2.5
    case Safe => 4.0
    case Unknown => 1.0
  }

  function Hi(m: Mode): real {
    match m
    case Max => 1.0
    case Ultra => 2.2
    case Fast => 3.8
    case Safe => 6.0
    case Unknown => 1.0
  }

  datatype Caller =
    | Idle
    | Queued(mode: Mode, interval: real)
    | Sleeping(mode: Mode, until: real)

  datatype Stamp = Stamp(mode: Mode, at: real)

  /** The clock, the last stamp, who holds the lock, the callers, and every release so far. */
  datatype State = State(clock: real, last: real, holder: Option<nat>, callers: seq<Caller>, stamps: seq<Stamp>)

  datatype Event =
    | Tick(now: real)
    | Call(i: nat, mode: Mode, interval: real)
    | Acquire(i: nat)
    | Wake(i: nat)

  predicate Enabled(s: State, e: Event) {
    match e
    case Tick(now) => now >= s.clock
    case Call(i, m, interval) => i < |s.callers| && s.callers[i].Idle? && Lo(m) <= interval <= Hi(m)
    case Acquire(i) => i < |s.callers| && s.callers[i].Queued? && s.holder == None
    case Wake(i) => i < |s.callers| && s.callers[i].Sleeping? && s.clock >= s.callers[i].until
  }

  function Stamped(s: State, i: nat, m: Mode): State
    requires i < |s.callers|
  {
    s.(last := s.clock, holder := None, callers := s.callers[i := Idle], stamps := s.stamps + [Stamp(m, s.clock)])
  }

  function Next(s: State, e: Event): State
    requires Enabled(s, e)
  {
    match e
    case Tick(now) => s.(clock := now)
    case Call(i, m, interval) => s.(callers := s.callers[i := Queued(m, interval)])
    case Acquire(i) =>
      var c := s.callers[i];
      var wait := s.last + c.interval - s.clock;
      if wait > 0.0 then s.(holder := Some(i), callers := s.callers[i := Sleeping(c.mode, s.clock + wait)])
      else Stamped(s, i, c.mode)
    case Wake(i) => Stamped(s, i, s.callers[i].mode)
  }

  ghost predicate Leads(s: State, es: seq<Event>, t: State)
    decreases |es|
  {
    if es == [] then s == t
    else Enabled(s, es[0]) && Leads(Next(s, es[0]), es[1..], t)
  }

  ghost predicate Init(s: State) {
    s.holder == None && s.stamps == [] && s.last <= s.clock && forall i :: 0 <= i < |s.callers| ==> s.callers[i] == Idle
  }

  /** Each stamp is later than the one before it by at least the lower bound of its own mode. */
  ghost predicate Spaced(stamps: seq<Stamp>) {
    forall k :: 0 < k < |stamps| ==> stamps[k].at >= stamps[k - 1].at + Lo(stamps[k].mode)
  }

  ghost predicate Inv(s: State) {
    && s.last <= s.clock
    && (s.stamps != [] ==> s.last == s.stamps[|s.stamps| - 1].at)
    && Spaced(s.stamps)
    && (forall i :: 0 <= i < |s.callers| && s.callers[i].Queued? ==> s.callers[i].interval >= Lo(s.callers[i].mode))
    && (forall i :: 0 <= i < |s.callers| && s.callers[i].Sleeping? ==>
          s.holder == Some(i) && s.callers[i].until >= s.last + Lo(s.callers[i].mode))
  }

  lemma InvStep(s: State, e: Event)
    requires Inv(s) && Enabled(s, e)
    ensures Inv(Next(s, e))
    ensures |Next(s, e).callers| == |s.callers|
  {
  }

  lemma {:induction false} InvRun(s: State, es: seq<Event>, t: State)
    requires Inv(s) && Leads(s, es, t)
    ensures Inv(t)
    decreases |es|
  {
    if es != [] {
      InvStep(s, es[0]);
      InvRun(Next(s, es[0]), es[1..], t);
    }
  }

  /** The lower bounds of all stamps after the first, added up. */
  function Gaps(stamps: seq<Stamp>): real {
    if |stamps| <= 1 then 0.0 else Gaps(stamps[..|stamps| - 1]) + Lo(stamps[|stamps| - 1].mode)
  }

  lemma {:induction false} SpacedSpan(stamps: seq<Stamp>)
    requires stamps != [] && Spaced(stamps)
    ensures stamps[|stamps| - 1].at - stamps[0].at >= Gaps(stamps)
  {
    if |stamps| > 1 {
      SpacedSpan(stamps[..|stamps| - 1]);
    }
  }

  lemma WindowSpan(stamps: seq<Stamp>, a: nat, b: nat)
    requires a < b <= |stamps| && Spaced(stamps)
    ensures stamps[b - 1].at - stamps[a].at >= Gaps(stamps[a..b])
  {
    var window := stamps[a..b];
    forall k | 0 < k < |window| ensures window[k].at >= window[k - 1].at + Lo(window[k].mode) {
      assert window[k] == stamps[a + k] && window[k - 1] == stamps[a + k - 1];
    }
    SpacedSpan(window);
  }

  lemma {:induction false} UniformGaps(stamps: seq<Stamp>, m: Mode)
    requires stamps != [] && forall k :: 0 <= k < |stamps| ==> stamps[k].mode == m
    ensures Gaps(stamps) == (|stamps| - 1) as real * Lo(m)
  {
    if |stamps| > 1 {
      UniformGaps(stamps[..|stamps| - 1], m);
      assert (|stamps| - 1) as real == (|stamps| - 2) as real + 1.0;
    }
  }

  /**
   * Under every interleaving: at most one caller sleeps inside the lock, consecutive stamps are spaced by
   * the later one's lower bound, and any window of stamps spans at least the bounds of all but its first.
   */
  lemma ReleasesAreSpaced(s: State, es: seq<Event>, t: State)
    requires Init(s) && Leads(s, es, t)
    ensures forall i, j ::
              0 <= i < |t.callers| && 0 <= j < |t.callers| && t.callers[i].Sleeping? && t.callers[j].Sleeping? ==>
                i == j
    ensures Spaced(t.stamps)
    ensures forall a, b :: 0 <= a < b <= |t.stamps| ==> t.stamps[b - 1].at - t.stamps[a].at >= Gaps(t.stamps[a..b])
  {
    InvRun(s, es, t);
    forall a, b | 0 <= a < b <= |t.stamps| ensures t.stamps[b - 1].at - t.stamps[a].at >= Gaps(t.stamps[a..b]) {
      WindowSpan(t.stamps, a, b);
    }
  }

  /** n consecutive releases in one mode take at least (n - 1) times that mode's lower bound. */
  lemma OneModeSpan(s: State, es: seq<Event>, t: State, a: nat, n: nat, m: Mode)
    requires Init(s) && Leads(s, es, t)
    requires n > 0 && a + n <= |t.stamps| && forall k :: a <= k < a + n ==> t.stamps[k].mode == m
    ensures t.stamps[a + n - 1].at - t.stamps[a].at
         >= (n - 1) as real * (match m
                               case Max => 0.6
                               case Ultra => 1.4
                               case Fast => 2.5
                               case Safe => 4.0
                               case Unknown => 1.0)
  {
    ReleasesAreSpaced(s, es, t);
    assert t.stamps[a + n - 1].at - t.stamps[a].at >= Gaps(t.stamps[a..a + n]);
    UniformGaps(t.stamps[a..a + n], m);
  }

  /** No caller draws or sleeps longer than its mode's upper bound after the last stamp. */
  ghost predicate SleepsShort(s: State) {
    && (forall i :: 0 <= i < |s.callers| && s.callers[i].Queued? ==> s.callers[i].interval <= Hi(s.callers[i].mode))
    && (forall i :: 0 <= i < |s.callers| && s.callers[i].Sleeping? ==>
          s.holder == Some(i) && s.callers[i].until <= s.last + Hi(s.callers[i].mode))
  }

  lemma {:induction false} ShortRun(s: State, es: seq<Event>, t: State)
    requires SleepsShort(s) && Leads(s, es, t)
    ensures SleepsShort(t)
    decreases |es|
  {
    if es != [] {
      ShortRun(Next(s, es[0]), es[1..], t);
    }
  }

  /** Whoever sleeps inside the lock wakes within its mode's upper bound of the last stamp. */
  lemma SleepsAreBounded(s: State, es: seq<Event>, t: State, i: nat)
    requires Init(s) && Leads(s, es, t) && i < |t.callers| && t.callers[i].Sleeping?
    ensures t.callers[i].until <= t.last + (match t.callers[i].mode
                                            case Max => 1.0
                                            case Ultra => 2.2
                                            case Fast => 3.8
                                            case Safe => 6.0
                                            case Unknown => 1.0)
  {
    ShortRun(s, es, t);
  }

  /** The throttle never blocks for good: a queued caller or the sleeping holder always has a next step. */
  lemma ThrottleNeverStuck(s: State, es: seq<Event>, t: State, i: nat)
    requires Init(s) && Leads(s, es, t)
    requires i < |t.callers| && !t.callers[i].Idle?
    ensures t.holder == None ==> Enabled(t, Acquire(i))
    ensures t.holder.Some? ==> exists now :: Enabled(t, Tick(now)) && Enabled(Next(t, Tick(now)), Wake(t.holder.value))
  {
    InvRun(s, es, t);
    HolderRun(s, es, t);
    if t.holder.Some? {
      var h := t.holder.value;
      var now := if t.clock >= t.callers[h].until then t.clock else t.callers[h].until;
      assert Enabled(t, Tick(now)) && Enabled(Next(t, Tick(now)), Wake(h));
    }
  }

  ghost predicate HolderSleeps(s: State) {
    s.holder.Some? ==> s.holder.value < |s.callers| && s.callers[s.holder.value].Sleeping?
  }

  lemma {:induction false} HolderRun(s: State, es: seq<Event>, t: State)
    requires HolderSleeps(s) && Inv(s) && Leads(s, es, t)
    ensures HolderSleeps(t)
    decreases |es|
  {
    if es != [] {
      InvStep(s, es[0]);
      HolderRun(Next(s, es[0]), es[1..], t);
    }
  }

  // ---------------------------------------------------------------- the module's lock and stamp

  /** The code around the two awaits: entering the lock, and stamping after the sleep. */
  class Throttle {
    var locked: bool
    var lastInvite: real

    constructor ()
      ensures !locked && lastInvite == 0.0
    {
      locked, lastInvite := false, 0.0;
    }

    /** Some(w): sleep w seconds holding the lock, then call Wake.  None: already stamped and let go. */
    method Acquire(now: real, interval: real) returns (sleep: Option<real>)
      requires !locked
      modifies this
      ensures sleep.Some? <==> old(lastInvite) + interval > now
      ensures sleep.Some? ==> locked && lastInvite == old(lastInvite) && now + sleep.value == old(lastInvite) + interval
      ensures sleep.None? ==> !locked && lastInvite == now >= old(lastInvite) + interval
      ensures forall s: State, i: nat, m: Mode ::
                i < |s.callers| && s.callers[i] == Queued(m, interval) && s.holder == None
                && s.last == old(lastInvite) && s.clock == now ==>
                  var t := Next(s, Event.Acquire(i));
                  && t.last == lastInvite && (t.holder == Some(i) <==> locked)
                  && (locked ==> t.callers[i] == Sleeping(m, now + sleep.value))
    {
      var wait := lastInvite + interval - now;
      if wait > 0.0 {
        locked := true;
        return Some(wait);
      }
      lastInvite := now;
      sleep := None;
    }

    method Wake(now: real)
      requires locked
      modifies this
      ensures !locked && lastInvite == now
    {
      lastInvite := now;
      locked := false;
    }
  }
}
