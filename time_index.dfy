/**
 * Leakage lag and time-column selection of the NewRec encoder
 * (model.py, NewRec.forward and NewRec.raw).
 *
 * One row of the time arrays is modelled: every operation here is applied
 * row by row to the B x (T+1) arrays. Python's `lag // 4` floors; Dafny's `/`
 * agrees with it for the positive divisor 4, whatever the sign of `lag`.
 */
module TimeIndex {

  function Max0(x: int): nat
  {
    if x < 0 then 0 else x
  }

  /** Month index after the lag: `max(0, t1 - 1 - lag // 4)`. */
  function LagMonth(t: int, lag: int): (r: nat)
    ensures lag >= 0 && t >= 1 ==> r < t
    ensures lag >= 0 && t <= 0 ==> r == 0
  {
    Max0(t - 1 - lag / 4)
  }

  /** Week index after the lag: `max(0, t2 - lag)`. */
  function LagWeek(t: int, lag: int): (r: nat)
    ensures lag >= 1 && t >= 1 ==> r < t
    ensures lag >= 0 ==> r <= Max0(t)
  {
    Max0(t - lag)
  }

  /** A larger lag never moves either index later. */
  lemma LagAntitone(t: int, lag1: int, lag2: int)
    requires lag1 <= lag2
    ensures LagMonth(t, lag2) <= LagMonth(t, lag1)
    ensures LagWeek(t, lag2) <= LagWeek(t, lag1)
  {
    assert lag1 / 4 <= lag2 / 4 by {
      assert lag1 == 4 * (lag1 / 4) + lag1 % 4;
      assert lag2 == 4 * (lag2 / 4) + lag2 % 4;
    }
  }

  function LagMonthRow(row: seq<int>, lag: int): (r: seq<nat>)
    ensures |r| == |row|
    ensures forall k :: 0 <= k < |row| ==> r[k] == LagMonth(row[k], lag)
  {
    seq(|row|, k requires 0 <= k < |row| => LagMonth(row[k], lag))
  }

  function LagWeekRow(row: seq<int>, lag: int): (r: seq<nat>)
    ensures |r| == |row|
    ensures forall k :: 0 <= k < |row| ==> r[k] == LagWeek(row[k], lag)
  {
    seq(|row|, k requires 0 <= k < |row| => LagWeek(row[k], lag))
  }

  /**
   * The clamp applied to whole rows, as `raw` does: under nonnegative lags every
   * month entry is strictly earlier than a positive raw entry, every week entry
   * is no later than its raw entry, and a larger lag moves no entry later.
   */
  lemma {:induction false} LagRowsNeverLookAhead(time1: seq<int>, time2: seq<int>, lag1: int, lag2: int)
    requires |time1| == |time2| && 0 <= lag1 <= lag2
    ensures |LagMonthRow(time1, lag1)| == |time1| && |LagWeekRow(time2, lag1)| == |time2|
    ensures forall k :: 0 <= k < |time1| && time1[k] >= 1 ==> LagMonthRow(time1, lag1)[k] < time1[k]
    ensures forall k :: 0 <= k < |time2| ==> LagWeekRow(time2, lag1)[k] <= Max0(time2[k])
    ensures forall k :: 0 <= k < |time1| ==> LagMonthRow(time1, lag2)[k] <= LagMonthRow(time1, lag1)[k]
    ensures forall k :: 0 <= k < |time2| ==> LagWeekRow(time2, lag2)[k] <= LagWeekRow(time2, lag1)[k]
  {
    forall k | 0 <= k < |time1|
      ensures LagMonth(time1[k], lag2) <= LagMonth(time1[k], lag1)
      ensures LagWeek(time2[k], lag2) <= LagWeek(time2[k], lag1)
    {
      LagAntitone(time1[k], lag1, lag2);
      LagAntitone(time2[k], lag1, lag2);
    }
  }

  /** numpy `a[:-1]` on one row. */
  function DropLast<T>(s: seq<T>): seq<T>
  {
    if |s| == 0 then [] else s[..|s| - 1]
  }

  /** numpy `a[1:]` on one row. */
  function DropFirst<T>(s: seq<T>): seq<T>
  {
    if |s| == 0 then [] else s[1..]
  }

  /** The four index rows NewRec.forward feeds to the popularity lookup. */
  datatype ForwardTimes = ForwardTimes(
    hist1: seq<nat>,     // month index of each history position
    hist2: seq<nat>,     // week index of each history position
    target1: seq<nat>,   // month index used to embed the positive/negative target
    target2: seq<nat>)   // week index used to embed the positive/negative target

  /**
   * The time rows are one column longer than the item row (T+1 columns). Both
   * are lagged; the history reads columns 0..T-1; the targets read the same
   * columns with `prev_time`, and otherwise columns 1..T, with the lagged month
   * row supplying both target indices.
   */
  function ForwardTimeColumns(time1: seq<int>, time2: seq<int>, lag: int, prevTime: bool): (r: ForwardTimes)
  {
    var t1 := LagMonthRow(time1, lag);
    var t2 := LagWeekRow(time2, lag);
    if prevTime then ForwardTimes(DropLast(t1), DropLast(t2), DropLast(t1), DropLast(t2))
    else ForwardTimes(DropLast(t1), DropLast(t2), DropFirst(t1), DropFirst(t1))
  }

  /**
   * Column by column: history position k reads time column k, a target at k
   * reads column k with `prev_time` and column k+1 otherwise, where the week
   * index of the target is the lagged month index.
   */
  lemma ForwardTimeColumnsAt(time1: seq<int>, time2: seq<int>, lag: int, prevTime: bool)
    requires |time1| == |time2| >= 1
    ensures var r := ForwardTimeColumns(time1, time2, lag, prevTime);
      var T := |time1| - 1;
      && |r.hist1| == T && |r.hist2| == T && |r.target1| == T && |r.target2| == T
      && (forall k :: 0 <= k < T ==> r.hist1[k] == LagMonth(time1[k], lag) && r.hist2[k] == LagWeek(time2[k], lag))
      && (prevTime ==> r.target1 == r.hist1 && r.target2 == r.hist2)
      && (!prevTime ==> forall k :: 0 <= k < T ==> r.target1[k] == LagMonth(time1[k + 1], lag) && r.target2[k] == r.target1[k])
  {
  }

  /**
   * Without `prev_time` a target is embedded with the time of the next history
   * position: the target at k and the history at k+1 share their month index.
   */
  lemma TargetUsesNextMonth(time1: seq<int>, time2: seq<int>, lag: int, k: nat)
    requires |time1| == |time2| && k + 2 < |time1|
    ensures ForwardTimeColumns(time1, time2, lag, false).target1[k] == ForwardTimeColumns(time1, time2, lag, false).hist1[k + 1]
  {
    ForwardTimeColumnsAt(time1, time2, lag, false);
  }

  /**
   * Under a nonnegative lag every history index is strictly earlier than its raw
   * month index (when that is positive) and never later than its raw week index.
   */
  lemma HistoryNeverLooksAhead(time1: seq<int>, time2: seq<int>, lag: int, k: nat)
    requires |time1| == |time2| && k + 1 < |time1| && lag >= 0
    ensures var r := ForwardTimeColumns(time1, time2, lag, true);
      && (time1[k] >= 1 ==> r.hist1[k] < time1[k])
      && r.hist2[k] <= Max0(time2[k])
  {
    ForwardTimeColumnsAt(time1, time2, lag, true);
  }
}
