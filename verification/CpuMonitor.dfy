/**
 cpu_monitor: one tick a second, an alert when the load is above 90% and the
 last alert lies more than a minute back. Times are milliseconds since the
 epoch, as the wall clock reports them.
 */
module CpuMonitor {

  datatype Tick = Tick(time: int, cpu: real)

  const COOLDOWN := 60_000
  const THRESHOLD := 90.0

  predicate High(t: Tick) { t.cpu > THRESHOLD }

  /** The times of the alerts from here on, when the last one was at `last`. */
  function Alerts(ticks: seq<Tick>, last: int): seq<int> {
    if ticks == [] then []
    else if High(ticks[0]) && ticks[0].time - last > COOLDOWN then
      [ticks[0].time] + Alerts(ticks[1..], ticks[0].time)
    else Alerts(ticks[1..], last)
  }

  method Monitor(ticks: seq<Tick>) returns (alerts: seq<int>)
    ensures alerts == Alerts(ticks, 0)
  {
    alerts := [];
    var lastAlertTime := 0;
    for i := 0 to |ticks|
      invariant alerts + Alerts(ticks[i..], lastAlertTime) == Alerts(ticks, 0)
    {
      assert ticks[i..][1..] == ticks[i + 1..];
      ghost var rest := Alerts(ticks[i..], lastAlertTime);
      if High(ticks[i]) && ticks[i].time - lastAlertTime > COOLDOWN {
        assert rest == [ticks[i].time] + Alerts(ticks[i + 1..], ticks[i].time);
        alerts := alerts + [ticks[i].time];
        lastAlertTime := ticks[i].time;
      }
    }
  }

  /** Every alert is raised by a tick above 90%, at its time, and alerts keep the order of their ticks. */
  lemma {:induction false} AlertFromTick(ticks: seq<Tick>, last: int, i: nat) returns (k: nat)
    requires i < |Alerts(ticks, last)|
    ensures k < |ticks| && ticks[k].cpu > 90.0 && ticks[k].time == Alerts(ticks, last)[i]
    ensures i <= k
  {
    var now := if High(ticks[0]) && ticks[0].time - last > COOLDOWN then ticks[0].time else last;
    if Alerts(ticks, last) == [ticks[0].time] + Alerts(ticks[1..], ticks[0].time) && High(ticks[0]) && i == 0 {
      k := 0;
    } else {
      k := AlertFromTick(ticks[1..], now, if High(ticks[0]) && ticks[0].time - last > COOLDOWN then i - 1 else i);
      k := k + 1;
    }
  }

  /** Whatever the clock does, k alerts on are more than k minutes on. */
  lemma {:induction false} AlertsApart(ticks: seq<Tick>, last: int, i: nat, j: nat)
    requires i <= j < |Alerts(ticks, last)|
    ensures Alerts(ticks, last)[i] > last + 60_000
    ensures Alerts(ticks, last)[j] - Alerts(ticks, last)[i] >= (j - i) * 60_001
  {
    if High(ticks[0]) && ticks[0].time - last > COOLDOWN {
      var rest := Alerts(ticks[1..], ticks[0].time);
      if i > 0 {
        AlertsApart(ticks[1..], ticks[0].time, i - 1, j - 1);
      } else if j > 0 {
        AlertsApart(ticks[1..], ticks[0].time, 0, j - 1);
      }
    } else {
      AlertsApart(ticks[1..], last, i, j);
    }
  }

  /** A window of T milliseconds holds at most T/60000 + 1 alerts. */
  lemma AlertsInWindow(ticks: seq<Tick>, i: nat, j: nat, window: nat)
    requires i <= j < |Alerts(ticks, 0)|
    requires Alerts(ticks, 0)[j] - Alerts(ticks, 0)[i] <= window
    ensures j - i + 1 <= window / 60_000 + 1
  {
    AlertsApart(ticks, 0, i, j);
    assert (j - i) * 60_000 <= window;
  }

  predicate NonDecreasing(ticks: seq<Tick>) {
    forall i, j :: 0 <= i < j < |ticks| ==> ticks[i].time <= ticks[j].time
  }

  /** Is there an alert at this moment or in the minute before it? */
  predicate Covered(time: int, alerts: seq<int>) {
    exists a <- alerts :: a <= time <= a + 60_000
  }

  /** With a clock that never goes back, a high tick that raises no alert has one in the minute before it. */
  lemma {:induction false} HighTicksCovered(ticks: seq<Tick>, last: int, i: nat)
    requires NonDecreasing(ticks) && i < |ticks| && ticks[i].cpu > 90.0
    requires forall k :: 0 <= k < |ticks| ==> last <= ticks[k].time
    ensures Covered(ticks[i].time, [last] + Alerts(ticks, last))
  {
    var alerts := Alerts(ticks, last);
    var now := if High(ticks[0]) && ticks[0].time - last > COOLDOWN then ticks[0].time else last;
    assert [last] + alerts == if now == last then [last] + Alerts(ticks[1..], last) else [last, now] + Alerts(ticks[1..], now);
    if i == 0 {
      assert now in [last] + alerts;
    } else {
      HighTicksCovered(ticks[1..], now, i - 1);
      var a :| a in [now] + Alerts(ticks[1..], now) && a <= ticks[i].time <= a + 60_000;
      assert a in [last] + alerts;
    }
  }

  /** So once the clock is past its first minute, no high tick goes unannounced for more than a minute. */
  lemma EveryHighTickAnnounced(ticks: seq<Tick>, i: nat)
    requires NonDecreasing(ticks) && i < |ticks| && ticks[i].cpu > 90.0
    requires ticks[0].time > 60_000
    ensures Covered(ticks[i].time, Alerts(ticks, 0))
  {
    HighTicksCovered(ticks, 0, i);
    var a :| a in [0] + Alerts(ticks, 0) && a <= ticks[i].time <= a + 60_000;
    assert a != 0;
  }

  /** A clock set back by d silences the monitor until it has caught up again. */
  lemma {:induction false} SetBackSilences(ticks: seq<Tick>, last: int)
    ensures Alerts(ticks, last) == [] <==> forall i :: 0 <= i < |ticks| && ticks[i].cpu > 90.0 ==> ticks[i].time <= last + 60_000
  {
    if ticks != [] {
      SetBackSilences(ticks[1..], last);
      assert forall i :: 1 <= i < |ticks| ==> ticks[i] == ticks[1..][i - 1];
      if High(ticks[0]) && ticks[0].time - last > COOLDOWN {
        assert Alerts(ticks, last) != [];
      } else {
        assert forall i :: 0 <= i < |ticks[1..]| ==> ticks[1..][i] == ticks[i + 1];
      }
    }
  }
}
