/**
 * The two per-user rate detectors: the flood deque of group_manager.py, which forgets what it has
 * popped and what came before its last alarm, and the list of the last ten times kept by bot.py.
 * Each is compared with a detector that keeps every message.
 */
module RateWindows {
  import opened Common

  const NO_TIMES: seq<real> := []

  ghost predicate Sorted(ts: seq<real>) {
    forall i, j :: 0 <= i < j < |ts| ==> ts[i] <= ts[j]
  }

  // ---------------------------------------------------------------- the flood deque

  /** A message's time, and the flood window and limit configured when it arrives. */
  datatype Msg = Msg(at: real, win: real, limit: int)

  /** 1 for a time the window still covers. */
  function InWindow(now: real, win: real): real -> int {
    t => if now - t > win then 0 else 1
  }

  /** Pop from the left while the oldest time is outside the window. */
  function Trim(dq: seq<real>, now: real, win: real): seq<real> {
    if dq != [] && now - dq[0] > win then Trim(dq[1..], now, win) else dq
  }

  /** The alarms of the deque, message by message. */
  function DequeAlarms(dq: seq<real>, msgs: seq<Msg>): (r: seq<bool>)
    ensures |r| == |msgs|
    decreases |msgs|
  {
    if msgs == [] then []
    else
      var q := Trim(dq + [msgs[0].at], msgs[0].at, msgs[0].win);
      var fired := |q| >= msgs[0].limit;
      [fired] + DequeAlarms(if fired then [] else q, msgs[1..])
  }

  /** The reference: all messages since the last alarm are kept, and those in the window are counted. */
  function HistoryAlarms(hist: seq<real>, msgs: seq<Msg>): (r: seq<bool>)
    ensures |r| == |msgs|
    decreases |msgs|
  {
    if msgs == [] then []
    else
      var h := hist + [msgs[0].at];
      var fired := Total(InWindow(msgs[0].at, msgs[0].win), h) >= msgs[0].limit;
      [fired] + HistoryAlarms(if fired then [] else h, msgs[1..])
  }

  /** The numbers: an alarm needs at least limit messages not older than the window, counting this one. */
  lemma AlarmMeans(hist: seq<real>, msgs: seq<Msg>, t: real)
    requires msgs != []
    ensures InWindow(msgs[0].at, msgs[0].win)(t) == if msgs[0].at - t <= msgs[0].win then 1 else 0
    ensures HistoryAlarms(hist, msgs)[0]
       <==> Total(InWindow(msgs[0].at, msgs[0].win), hist + [msgs[0].at]) >= msgs[0].limit
  {
  }

  /** The clock has not gone back: not in hist, not since, and not between the messages to come. */
  ghost predicate ClockForward(hist: seq<real>, msgs: seq<Msg>) {
    && Sorted(hist)
    && (forall t, j :: 0 <= t < |hist| && 0 <= j < |msgs| ==> hist[t] <= msgs[j].at)
    && (forall i, j :: 0 <= i < j < |msgs| ==> msgs[i].at <= msgs[j].at)
  }

  predicate Out(t: real, m: Msg) { m.at - t > m.win }

  /** A time that one message finds outside the window is outside for every later message. */
  ghost predicate StaysOut(t: real, msgs: seq<Msg>) {
    forall i, j :: 0 <= i < j < |msgs| && Out(t, msgs[i]) ==> Out(t, msgs[j])
  }

  /** That holds of every time in hist, and of every message for those from itself on. */
  ghost predicate OnceOutAlwaysOut(hist: seq<real>, msgs: seq<Msg>) {
    && (forall t :: 0 <= t < |hist| ==> StaysOut(hist[t], msgs))
    && (forall k :: 0 <= k < |msgs| ==> StaysOut(msgs[k].at, msgs[k..]))
  }

  /** Trimming keeps a suffix and drops only times outside the window. */
  lemma {:induction false} TrimIsSuffix(dq: seq<real>, now: real, win: real) returns (k: nat)
    ensures k <= |dq| && Trim(dq, now, win) == dq[k..]
    ensures forall i :: 0 <= i < k ==> now - dq[i] > win
    ensures k < |dq| ==> now - dq[k] <= win
  {
    if dq != [] && now - dq[0] > win {
      var j := TrimIsSuffix(dq[1..], now, win);
      k := j + 1;
      assert dq[1..][j..] == dq[k..];
    } else {
      k := 0;
    }
  }

  /** Trimming a sorted history from d on leaves exactly the times from d on that are in the window. */
  lemma TrimFrom(h: seq<real>, d: nat, m: Msg) returns (d': nat)
    requires Sorted(h) && d <= |h|
    ensures d <= d' <= |h| && Trim(h[d..], m.at, m.win) == h[d'..]
    ensures forall u :: d <= u < d' ==> Out(h[u], m)
    ensures forall u :: d' <= u < |h| ==> !Out(h[u], m)
  {
    var p := TrimIsSuffix(h[d..], m.at, m.win);
    d' := d + p;
    assert h[d..][p..] == h[d'..];
    forall u | d <= u < d' ensures Out(h[u], m) {
      assert h[u] == h[d..][u - d];
    }
    forall u | d' <= u < |h| ensures !Out(h[u], m) {
      assert h[d..][p] == h[d'];
    }
  }

  lemma WindowIsSuffix(h: seq<real>, k: nat, now: real, win: real)
    requires Sorted(h) && k <= |h|
    requires forall i :: 0 <= i < k ==> now - h[i] > win
    requires k < |h| ==> now - h[k] <= win
    ensures Total(InWindow(now, win), h) == |h| - k
  {
    assert h == h[..k] + h[k..];
    TotalConcat(InWindow(now, win), h[..k], h[k..]);
    TotalBounds(InWindow(now, win), h[..k], 0, 0);
    TotalBounds(InWindow(now, win), h[k..], 1, 1);
  }

  /** The first k times of hist are outside the window of every message to come. */
  ghost predicate Gone(hist: seq<real>, k: nat, msgs: seq<Msg>) {
    k <= |hist| && forall t, j :: 0 <= t < k && 0 <= j < |msgs| ==> Out(hist[t], msgs[j])
  }

  /** One message, when the deque has dropped the first k times of the history. */
  lemma DequeStep(hist: seq<real>, k: nat, msgs: seq<Msg>) returns (k': nat)
    requires msgs != [] && ClockForward(hist, msgs) && OnceOutAlwaysOut(hist, msgs) && Gone(hist, k, msgs)
    ensures var h, m := hist + [msgs[0].at], msgs[0];
            && k' <= |h| && Trim(hist[k..] + [m.at], m.at, m.win) == h[k'..]
            && Total(InWindow(m.at, m.win), h) == |h| - k'
            && Gone(h, k', msgs[1..])
  {
    var h, m := hist + [msgs[0].at], msgs[0];
    assert hist[k..] + [m.at] == h[k..];
    assert Sorted(h);
    k' := TrimFrom(h, k, m);
    assert forall t :: 0 <= t < k' ==> Out(h[t], m);
    WindowIsSuffix(h, k', m.at, m.win);
    forall t, i | 0 <= t < k' && 0 <= i < |msgs[1..]| ensures Out(h[t], msgs[1..][i]) {
      if t < |hist| {
        assert StaysOut(hist[t], msgs);
      } else {
        assert StaysOut(msgs[0].at, msgs[0..]) && msgs[0..] == msgs;
      }
    }
  }

  lemma StaysOutLater(t: real, msgs: seq<Msg>)
    requires msgs != [] && StaysOut(t, msgs)
    ensures StaysOut(t, msgs[1..])
  {
    forall i, j | 0 <= i < j < |msgs[1..]| && Out(t, msgs[1..][i]) ensures Out(t, msgs[1..][j]) {
      assert msgs[1..][i] == msgs[i + 1] && msgs[1..][j] == msgs[j + 1];
    }
  }

  lemma ClockMovesOn(hist: seq<real>, msgs: seq<Msg>)
    requires msgs != [] && ClockForward(hist, msgs)
    ensures ClockForward(hist + [msgs[0].at], msgs[1..]) && ClockForward([], msgs[1..])
  {
  }

  lemma ConditionsMoveOn(hist: seq<real>, msgs: seq<Msg>)
    requires msgs != [] && OnceOutAlwaysOut(hist, msgs)
    ensures OnceOutAlwaysOut(hist + [msgs[0].at], msgs[1..]) && OnceOutAlwaysOut([], msgs[1..])
  {
    var h, rest := hist + [msgs[0].at], msgs[1..];
    assert msgs[0..] == msgs;
    assert StaysOut(msgs[0].at, msgs[0..]);
    StaysOutLater(msgs[0].at, msgs);
    forall t | 0 <= t < |h| ensures StaysOut(h[t], rest) {
      if t < |hist| {
        StaysOutLater(hist[t], msgs);
      }
    }
    forall k | 0 <= k < |rest| ensures StaysOut(rest[k].at, rest[k..]) {
      assert rest[k..] == msgs[k + 1..];
      assert StaysOut(msgs[k + 1].at, msgs[k + 1..]);
    }
  }

  /**
   * With a clock that never goes back, and windows under which what is once outside stays outside, the
   * deque sounds exactly the alarms of the full history.
   */
  lemma {:induction false} DequeIsExact(hist: seq<real>, k: nat, msgs: seq<Msg>)
    requires ClockForward(hist, msgs) && OnceOutAlwaysOut(hist, msgs) && Gone(hist, k, msgs)
    ensures DequeAlarms(hist[k..], msgs) == HistoryAlarms(hist, msgs)
    decreases |msgs|
  {
    if msgs != [] {
      var h := hist + [msgs[0].at];
      var k' := DequeStep(hist, k, msgs);
      ClockMovesOn(hist, msgs);
      ConditionsMoveOn(hist, msgs);
      if |h| - k' >= msgs[0].limit {
        DequeIsExact(NO_TIMES, 0, msgs[1..]);
        assert NO_TIMES[0..] == NO_TIMES;
      } else {
        DequeIsExact(h, k', msgs[1..]);
      }
    }
  }

  lemma DequeIsExactFromStart(msgs: seq<Msg>)
    ensures ClockForward([], msgs) && OnceOutAlwaysOut([], msgs) ==> DequeAlarms([], msgs) == HistoryAlarms([], msgs)
  {
    if ClockForward([], msgs) && OnceOutAlwaysOut([], msgs) {
      DequeIsExact(NO_TIMES, 0, msgs);
      assert NO_TIMES[0..] == [];
    }
  }

  /** Windows that never get wider will do, and so will one that never changes. */
  lemma NarrowingIsEnough(msgs: seq<Msg>)
    requires ClockForward([], msgs)
    requires forall i, j :: 0 <= i < j < |msgs| ==> msgs[i].win >= msgs[j].win
    ensures OnceOutAlwaysOut([], msgs)
  {
    forall k | 0 <= k < |msgs| ensures StaysOut(msgs[k].at, msgs[k..]) {
      var rest := msgs[k..];
      forall i, j | 0 <= i < j < |rest| && Out(msgs[k].at, rest[i]) ensures Out(msgs[k].at, rest[j]) {
        assert rest[i] == msgs[k + i] && rest[j] == msgs[k + j];
      }
    }
  }

  // ---------------------------------------------------------------- and only then

  function WithLimits(msgs: seq<Msg>, limits: seq<int>): (r: seq<Msg>)
    requires |limits| == |msgs|
    ensures |r| == |msgs|
  {
    seq(|msgs|, i requires 0 <= i < |msgs| => msgs[i].(limit := limits[i]))
  }

  /** Nothing is alarming before message j. */
  ghost predicate QuietBefore(hist: seq<real>, msgs: seq<Msg>, j: nat) {
    j < |msgs| && forall i :: 0 <= i < j ==> msgs[i].limit > |hist| + |msgs|
  }

  function Times(msgs: seq<Msg>): seq<real> {
    seq(|msgs|, i requires 0 <= i < |msgs| => msgs[i].at)
  }

  lemma TimesMoveOn(hist: seq<real>, msgs: seq<Msg>, j: nat)
    requires 0 < j < |msgs|
    ensures hist + Times(msgs[..j + 1]) == hist + [msgs[0].at] + Times(msgs[1..][..j])
  {
  }

  lemma FirstTime(hist: seq<real>, msgs: seq<Msg>)
    requires msgs != []
    ensures hist + Times(msgs[..1]) == hist + [msgs[0].at]
  {
  }

  lemma TotalAtMost(h: seq<real>, m: Msg)
    ensures 0 <= Total(InWindow(m.at, m.win), h) <= |h|
  {
    TotalBounds(InWindow(m.at, m.win), h, 0, 1);
  }

  lemma {:induction false} HistoryAt(hist: seq<real>, msgs: seq<Msg>, j: nat)
    requires QuietBefore(hist, msgs, j)
    ensures HistoryAlarms(hist, msgs)[j] <==>
              Total(InWindow(msgs[j].at, msgs[j].win), hist + Times(msgs[..j + 1])) >= msgs[j].limit
    decreases j
  {
    var h := hist + [msgs[0].at];
    if j == 0 {
      FirstTime(hist, msgs);
    } else {
      TotalAtMost(h, msgs[0]);
      HistoryAt(h, msgs[1..], j - 1);
      TimesMoveOn(hist, msgs, j);
      assert msgs[1..][j - 1] == msgs[j];
    }
  }

  lemma FirstTimesMove(hist: seq<real>, msgs: seq<Msg>)
    requires msgs != []
    ensures hist + [msgs[0].at] + Times(msgs[1..]) == hist + Times(msgs)
  {
  }

  /** What the deque holds at message j when nothing has alarmed: the times from k on, all in its window. */
  lemma {:induction false} DequeAt(hist: seq<real>, d: nat, msgs: seq<Msg>, t: nat, i: nat, j: nat) returns (k: nat)
    requires ClockForward(hist, msgs) && QuietBefore(hist, msgs, j) && d <= |hist|
    requires t < d || (i < j && t <= |hist| + i && Out((hist + Times(msgs))[t], msgs[i]))
    ensures t < k <= |hist| + j + 1
    ensures DequeAlarms(hist[d..], msgs)[j] <==> |hist| + j + 1 - k >= msgs[j].limit
    ensures var h := hist + Times(msgs[..j + 1]); forall u :: k <= u < |h| ==> !Out(h[u], msgs[j])
    decreases j
  {
    var h, m := hist + [msgs[0].at], msgs[0];
    ClockMovesOn(hist, msgs);
    assert hist[d..] + [m.at] == h[d..];
    var d' := TrimFrom(h, d, m);
    if j == 0 {
      FirstTime(hist, msgs);
      k := d';
    } else {
      FirstTimesMove(hist, msgs);
      if i == 0 && t >= d {
        assert h[t] == (hist + Times(msgs))[t];
      }
      k := DequeAt(h, d', msgs[1..], t, if i > 0 then i - 1 else 0, j - 1);
      TimesMoveOn(hist, msgs, j);
      assert msgs[1..][j - 1] == msgs[j];
    }
  }

  /** If a time out of the window at message i is in it again at j, some limits make the two disagree. */
  lemma DisagreeWhenWidened(msgs: seq<Msg>, t: nat, i: nat, j: nat) returns (limits: seq<int>)
    requires ClockForward([], msgs) && t <= i < j < |msgs|
    requires Out(msgs[t].at, msgs[i]) && !Out(msgs[t].at, msgs[j])
    ensures |limits| == |msgs|
    ensures DequeAlarms([], WithLimits(msgs, limits)) != HistoryAlarms([], WithLimits(msgs, limits))
  {
    var times := NO_TIMES + Times(msgs[..j + 1]);
    var count := Total(InWindow(msgs[j].at, msgs[j].win), times);
    limits := seq(|msgs|, x => if x == j then count else |msgs| + 1);
    var ms := WithLimits(msgs, limits);
    assert ClockForward(NO_TIMES, ms) && QuietBefore(NO_TIMES, ms, j);
    assert Times(ms[..j + 1]) == Times(msgs[..j + 1]);
    HistoryAt(NO_TIMES, ms, j);
    var k := DequeAt(NO_TIMES, 0, ms, t, i, j);
    assert NO_TIMES[0..] == [];
    OneMoreCounts(times, k, t, msgs[j]);
  }

  /** The times from k on are in the window, and an earlier one is too. */
  lemma OneMoreCounts(times: seq<real>, k: nat, t: nat, m: Msg)
    requires t < k <= |times| && !Out(times[t], m)
    requires forall u :: k <= u < |times| ==> !Out(times[u], m)
    ensures Total(InWindow(m.at, m.win), times) >= |times| - k + 1
  {
    var f := InWindow(m.at, m.win);
    assert times == times[..k] + times[k..];
    TotalConcat(f, times[..k], times[k..]);
    TotalBounds(f, times[k..], 1, 1);
    TotalUpdate(f, times[..k], t, m.at - m.win - 1.0);
    TotalBounds(f, times[..k][t := m.at - m.win - 1.0], 0, 1);
  }

  lemma ComesBack(msgs: seq<Msg>) returns (t: nat, i: nat, j: nat)
    requires !OnceOutAlwaysOut([], msgs)
    ensures t <= i < j < |msgs| && Out(msgs[t].at, msgs[i]) && !Out(msgs[t].at, msgs[j])
  {
    t :| 0 <= t < |msgs| && !StaysOut(msgs[t].at, msgs[t..]);
    var a, b :| 0 <= a < b < |msgs[t..]| && Out(msgs[t].at, msgs[t..][a]) && !Out(msgs[t].at, msgs[t..][b]);
    i, j := t + a, t + b;
  }

  /**
   * The exact condition: the deque sounds the alarms of the full history, whatever the limits, exactly
   * when no message that has once been outside the window comes back into a later one, as it may when the
   * window is made wider between two messages.
   */
  lemma DequeIsExactIff(msgs: seq<Msg>)
    requires ClockForward([], msgs)
    ensures (forall limits: seq<int> | |limits| == |msgs| ::
               DequeAlarms([], WithLimits(msgs, limits)) == HistoryAlarms([], WithLimits(msgs, limits)))
       <==> OnceOutAlwaysOut([], msgs)
  {
    if OnceOutAlwaysOut([], msgs) {
      forall limits: seq<int> | |limits| == |msgs|
        ensures DequeAlarms([], WithLimits(msgs, limits)) == HistoryAlarms([], WithLimits(msgs, limits))
      {
        LimitsDoNotMatter(msgs, limits);
        DequeIsExactFromStart(WithLimits(msgs, limits));
      }
    } else {
      var t, i, j := ComesBack(msgs);
      var limits := DisagreeWhenWidened(msgs, t, i, j);
    }
  }

  lemma LimitsDoNotMatter(msgs: seq<Msg>, limits: seq<int>)
    requires |limits| == |msgs| && ClockForward([], msgs) && OnceOutAlwaysOut([], msgs)
    ensures ClockForward([], WithLimits(msgs, limits)) && OnceOutAlwaysOut([], WithLimits(msgs, limits))
  {
    var ms := WithLimits(msgs, limits);
    forall k | 0 <= k < |ms| ensures StaysOut(ms[k].at, ms[k..]) {
      forall i, j | 0 <= i < j < |ms[k..]| && Out(ms[k].at, ms[k..][i]) ensures Out(ms[k].at, ms[k..][j]) {
        assert StaysOut(msgs[k].at, msgs[k..]);
        assert Out(msgs[k].at, msgs[k..][i]);
      }
    }
  }

  /** A window of one second made ten seconds wide: the deque has forgotten the first message for good. */
  lemma WideningForgets()
    ensures var msgs := [Msg(0.0, 1.0, 9), Msg(5.0, 1.0, 9), Msg(6.0, 10.0, 3)];
            DequeAlarms([], msgs)[2] != HistoryAlarms([], msgs)[2]
  {
    var msgs := [Msg(0.0, 1.0, 9), Msg(5.0, 1.0, 9), Msg(6.0, 10.0, 3)];
    assert ClockForward(NO_TIMES, msgs) && QuietBefore(NO_TIMES, msgs, 2);
    HistoryAt(NO_TIMES, msgs, 2);
    assert NO_TIMES + Times(msgs[..3]) == [0.0, 5.0, 6.0];
    TotalBounds(InWindow(6.0, 10.0), [0.0, 5.0, 6.0], 1, 1);
    var k := DequeAt(NO_TIMES, 0, msgs, 0, 1, 2);
    assert NO_TIMES[0..] == [];
  }

  /** The limits of the alarms sounded, added up. */
  function AlarmCost(alarms: seq<bool>, msgs: seq<Msg>): int
    requires |alarms| == |msgs|
  {
    if msgs == [] then 0 else (if alarms[0] then msgs[0].limit else 0) + AlarmCost(alarms[1..], msgs[1..])
  }

  /**
   * No message is counted towards two alarms, for any clock: the limits of all alarms together are at
   * most the number of messages, so with a fixed limit there are at most messages/limit alarms.
   */
  lemma {:induction false} AlarmsArePaidFor(dq: seq<real>, msgs: seq<Msg>)
    ensures AlarmCost(DequeAlarms(dq, msgs), msgs) <= |dq| + |msgs|
    decreases |msgs|
  {
    if msgs != [] {
      var q := Trim(dq + [msgs[0].at], msgs[0].at, msgs[0].win);
      var _ := TrimIsSuffix(dq + [msgs[0].at], msgs[0].at, msgs[0].win);
      var rest := if |q| >= msgs[0].limit then [] else q;
      AlarmsArePaidFor(rest, msgs[1..]);
      var alarms := DequeAlarms(dq, msgs);
      assert alarms[1..] == DequeAlarms(rest, msgs[1..]);
    }
  }

  /** The deque of one user in one chat, as _violations updates it. */
  class FloodLog {
    var dq: seq<real>

    constructor ()
      ensures dq == []
    {
      dq := [];
    }

    method Message(now: real, win: real, limit: int) returns (flood: bool)
      modifies this
      ensures flood == (|Trim(old(dq) + [now], now, win)| >= limit)
      ensures dq == if flood then [] else Trim(old(dq) + [now], now, win)
    {
      dq := dq + [now];
      while dq != [] && now - dq[0] > win
        invariant Trim(dq, now, win) == Trim(old(dq) + [now], now, win)
        decreases |dq|
      {
        dq := dq[1..];
      }
      flood := |dq| >= limit;
      if flood {
        dq := [];
      }
    }

    /** A whole conversation, from an empty deque. */
    method Watch(msgs: seq<Msg>) returns (alarms: seq<bool>)
      requires dq == []
      modifies this
      ensures alarms == DequeAlarms([], msgs)
      ensures ClockForward([], msgs) && OnceOutAlwaysOut([], msgs) ==> alarms == HistoryAlarms([], msgs)
    {
      alarms := [];
      var i := 0;
      while i < |msgs|
        invariant 0 <= i <= |msgs|
        invariant alarms + DequeAlarms(dq, msgs[i..]) == DequeAlarms([], msgs)
      {
        assert msgs[i..][0] == msgs[i] && msgs[i..][1..] == msgs[i + 1..];
        var flood := Message(msgs[i].at, msgs[i].win, msgs[i].limit);
        alarms := alarms + [flood];
        i := i + 1;
      }
      assert msgs[i..] == [];
      DequeIsExactFromStart(msgs);
    }
  }

  // ---------------------------------------------------------------- the last ten times

  const KEEP: nat := 10
  const SPAN: real := 10.0

  function Recent(now: real): real -> int {
    t => if now - t < SPAN then 1 else 0
  }

  function LastTen(ts: seq<real>): seq<real> {
    if |ts| <= KEEP then ts else ts[|ts| - KEEP..]
  }

  function TrackerAlarms(kept: seq<real>, threshold: int, times: seq<real>): seq<bool>
    decreases |times|
  {
    if times == [] then []
    else
      var k := LastTen(kept + [times[0]]);
      [Total(Recent(times[0]), k) >= threshold] + TrackerAlarms(k, threshold, times[1..])
  }

  function FullAlarms(hist: seq<real>, threshold: int, times: seq<real>): seq<bool>
    decreases |times|
  {
    if times == [] then []
    else
      var h := hist + [times[0]];
      [Total(Recent(times[0]), h) >= threshold] + FullAlarms(h, threshold, times[1..])
  }

  /** If the last ten of a sorted history hold fewer than n <= 10 recent times, so does the history. */
  lemma LastTenSuffice(h: seq<real>, now: real, threshold: int)
    requires Sorted(h) && threshold <= KEEP
    ensures Total(Recent(now), LastTen(h)) >= threshold <==> Total(Recent(now), h) >= threshold
  {
    if |h| > KEEP {
      var k := |h| - KEEP;
      assert h == h[..k] + h[k..];
      TotalConcat(Recent(now), h[..k], h[k..]);
      TotalBounds(Recent(now), h[..k], 0, 1);
      if now - h[k] < SPAN {
        assert forall i :: 0 <= i < |h[k..]| ==> h[k] <= h[k..][i];
        TotalBounds(Recent(now), h[k..], 1, 1);
      } else {
        assert forall i :: 0 <= i < k ==> h[i] <= h[k];
        TotalBounds(Recent(now), h[..k], 0, 0);
      }
    }
  }

  lemma {:induction false} TrackerMatchesFull(hist: seq<real>, threshold: int, times: seq<real>)
    requires threshold <= KEEP && Sorted(hist + times)
    ensures TrackerAlarms(LastTen(hist), threshold, times) == FullAlarms(hist, threshold, times)
    decreases |times|
  {
    if times != [] {
      var h := hist + [times[0]];
      assert hist + times == h + times[1..];
      assert Sorted(h) by { assert h == (hist + times)[..|h|]; }
      LastTenSuffice(h, times[0], threshold);
      assert LastTen(LastTen(hist) + [times[0]]) == LastTen(h);
      TrackerMatchesFull(h, threshold, times[1..]);
    }
  }

  /** The numbers: the last ten times, and those under ten seconds old. */
  lemma TrackerNumbers(ts: seq<real>, now: real, t: real)
    ensures |ts| <= 10 ==> LastTen(ts) == ts
    ensures |ts| > 10 ==> LastTen(ts) == ts[|ts| - 10..]
    ensures Recent(now)(t) == if now - t < 10.0 then 1 else 0
  {
  }

  /** A burst of n messages in one instant. */
  function Burst(n: nat): seq<real> { seq(n, _ => 0.0) }

  lemma {:induction false} FullCatchesBurst(hist: seq<real>, threshold: int, n: nat)
    requires n > 0 && hist == Burst(|hist|) && |hist| + n >= threshold
    ensures var a := FullAlarms(hist, threshold, Burst(n)); |a| == n && a[n - 1]
    decreases n
  {
    var h := hist + [0.0];
    assert h == Burst(|h|);
    assert Burst(n)[1..] == Burst(n - 1);
    if n == 1 {
      TotalBounds(Recent(0.0), h, 1, 1);
    } else {
      FullCatchesBurst(h, threshold, n - 1);
    }
  }

  lemma {:induction false} TrackerStaysSilent(kept: seq<real>, threshold: int, times: seq<real>)
    requires threshold > KEEP
    ensures var a := TrackerAlarms(kept, threshold, times);
            |a| == |times| && forall i :: 0 <= i < |a| ==> !a[i]
    decreases |times|
  {
    if times != [] {
      var k := LastTen(kept + [times[0]]);
      TotalBounds(Recent(times[0]), k, 0, 1);
      TrackerStaysSilent(k, threshold, times[1..]);
    }
  }

  /**
   * Keeping the last ten times loses nothing exactly when the threshold is at most ten; the configured
   * threshold is ten.
   */
  lemma TenAreEnoughIff(threshold: int)
    ensures (forall times: seq<real> :: Sorted(times) ==>
               TrackerAlarms([], threshold, times) == FullAlarms([], threshold, times))
        <==> threshold <= 10
  {
    if threshold <= KEEP {
      forall times: seq<real> | Sorted(times)
        ensures TrackerAlarms([], threshold, times) == FullAlarms([], threshold, times)
      {
        assert [] + times == times;
        TrackerMatchesFull([], threshold, times);
      }
    } else {
      var times := Burst(threshold);
      assert Sorted(times);
      FullCatchesBurst([], threshold, threshold);
      TrackerStaysSilent([], threshold, times);
      assert TrackerAlarms([], threshold, times) != FullAlarms([], threshold, times);
    }
  }

  /** The per-user lists of group_message_filter. */
  class MessageTracker {
    var kept: map<int, seq<real>>

    constructor ()
      ensures kept == map[]
    {
      kept := map[];
    }

    method Message(user: int, now: real, threshold: int) returns (spam: bool)
      modifies this
      ensures var before := if user in old(kept) then old(kept)[user] else [];
              && kept == old(kept)[user := LastTen(before + [now])]
              && spam == (Total(Recent(now), LastTen(before + [now])) >= threshold)
    {
      if user !in kept {
        kept := kept[user := []];
      }
      kept := kept[user := kept[user] + [now]];
      if |kept[user]| > 10 {
        kept := kept[user := kept[user][|kept[user]| - 10..]];
      }
      var recent := CountRecent(kept[user], now);
      spam := recent >= threshold;
    }

    static method CountRecent(times: seq<real>, now: real) returns (recent: nat)
      ensures recent == Total(Recent(now), times)
    {
      recent := 0;
      var i := 0;
      while i < |times|
        invariant 0 <= i <= |times|
        invariant recent + Total(Recent(now), times[i..]) == Total(Recent(now), times)
      {
        assert times[i..][1..] == times[i + 1..];
        if now - times[i] < 10.0 {
          recent := recent + 1;
        }
        i := i + 1;
      }
    }
  }
}
