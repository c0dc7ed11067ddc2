/** X timestamps: comparison with wrap-around, and the application's user time. */
module Timestamps {
  import opened Text
  import opened StartupIds

  /** quint32 wraps around here. */
  const WRAP: int := 0x1_0000_0000

  function U32(n: int): (r: int)
    ensures 0 <= r < WRAP
  {
    n % WRAP
  }

  /** timestampCompare. */
  function Compare(time1: int, time2: int): int {
    var t1, t2 := U32(time1), U32(time2);
    if t1 == t2 then 0 else if U32(t1 - t2) < 0x7fff_ffff then 1 else -1
  }

  /** timestampDiff: time2 - time1, returned as an int. */
  function Diff(time1: int, time2: int): int {
    ToInt(U32(U32(time2) - U32(time1)))
  }

  function Sign(n: int): int {
    if n > 0 then 1 else if n < 0 then -1 else 0
  }

  // ---------------------------------------------------------------- what the comparison is worth

  /** Only the difference matters. */
  lemma CompareByDifference(a: int, b: int)
    ensures Compare(a, b) == if U32(a - b) == 0 then 0 else if U32(a - b) < 0x7fff_ffff then 1 else -1
  {
    U32OfDifference(a, b);
  }

  lemma U32OfDifference(a: int, b: int)
    ensures U32(U32(a) - U32(b)) == U32(a - b)
    ensures U32(a) == U32(b) <==> U32(a - b) == 0
  {
    var q := a / WRAP - b / WRAP;
    assert a - b == q * WRAP + (U32(a) - U32(b));
    ModShift(U32(a) - U32(b), q);
  }

  lemma ModShift(n: int, q: int)
    ensures (q * WRAP + n) % WRAP == n % WRAP
  {
  }

  /** For true times less than a whole wrap apart, the comparison of their 32-bit images has the
      sign of the true difference exactly from -0x80000001 up to 0x7ffffffe. */
  lemma CompareExact(a: int, b: int)
    requires -WRAP < a - b < WRAP
    ensures Compare(a, b) == Sign(a - b) <==> -0x8000_0001 <= a - b <= 0x7fff_fffe
  {
    CompareByDifference(a, b);
  }

  /** The comparison is antisymmetric except at three differences. */
  lemma AntisymmetryExact(a: int, b: int)
    ensures Compare(a, b) == -Compare(b, a)
            <==> U32(a - b) != 0x7fff_ffff && U32(a - b) != 0x8000_0000 && U32(a - b) != 0x8000_0001
  {
    CompareByDifference(a, b);
    CompareByDifference(b, a);
    assert U32(b - a) == if U32(a - b) == 0 then 0 else WRAP - U32(a - b) by {
      var q := (a - b) / WRAP;
      assert b - a == (-q) * WRAP - U32(a - b);
      ModShift(-U32(a - b), -q);
    }
  }

  /** The difference of the images is the true distance exactly if that fits an int. */
  lemma DiffExact(a: int, b: int)
    ensures Diff(a, b) == b - a <==> IsInt(b - a)
  {
    U32OfDifference(b, a);
    var q := (b - a) / WRAP;
    assert b - a == q * WRAP + U32(b - a);
    ToIntOfWrapped(b - a);
  }

  lemma ToIntOfWrapped(n: int)
    ensures ToInt(U32(n)) == n <==> IsInt(n)
  {
    var q := n / WRAP;
    assert U32(n) + 0x8000_0000 == (-q) * WRAP + (n + 0x8000_0000);
    ModShift(n + 0x8000_0000, -q);
  }

  // ---------------------------------------------------------------- the application's times

  function Later(current: ULong, time: ULong): ULong {
    if current == 0 || Compare(time, current) > 0 then time else current
  }

  /** The update of a time that some true times lead to, oldest update first. */
  function Updated(current: ULong, times: seq<int>): ULong
    decreases |times|
  {
    if times == [] then current else Updated(Later(current, U32(times[0])), times[1..])
  }

  /** True times that are close together, none of them with the image 0. */
  predicate InWindow(times: seq<int>) {
    && (forall i, j :: 0 <= i < |times| && 0 <= j < |times| ==> times[i] - times[j] < 0x7fff_ffff)
    && (forall i :: 0 <= i < |times| ==> U32(times[i]) != 0)
  }

  function Latest(times: seq<int>): (m: int)
    requires times != []
    ensures m in times && forall i :: 0 <= i < |times| ==> times[i] <= m
  {
    if |times| == 1 then times[0]
    else
      var m := Latest(times[1..]);
      assert forall i :: 0 < i < |times| ==> times[i] == times[1..][i - 1];
      if times[0] > m then times[0] else m
  }

  /** One update keeps the later of two true times, exactly when they are close enough. */
  lemma LaterExact(a: int, b: int)
    requires U32(a) != 0 && U32(b) != 0 && -WRAP < b - a < WRAP
    ensures Later(U32(a), U32(b)) == U32(if b > a then b else a)
            <==> -0x8000_0001 <= b - a <= 0x7fff_fffe
  {
    CompareExact(b, a);
    CompareImages(b, a);
    U32OfDifference(b, a);
  }

  lemma CompareImages(a: int, b: int)
    ensures Compare(U32(a), U32(b)) == Compare(a, b)
  {
  }

  lemma {:induction false} UpdatesFrom(m: int, times: seq<int>)
    requires InWindow([m] + times)
    ensures Updated(U32(m), times) == U32(Latest([m] + times))
    decreases |times|
  {
    hide Later, Latest;
    LatestPair(m, times);
    if times != [] {
      var s := [m] + times;
      assert s[0] == m && s[1] == times[0];
      LaterExact(m, times[0]);
      var m1 := if times[0] > m then times[0] else m;
      WindowShrinks(m, times);
      UpdatesFrom(m1, times[1..]);
    }
  }

  lemma WindowShrinks(m: int, times: seq<int>)
    requires times != [] && InWindow([m] + times)
    ensures InWindow([if times[0] > m then times[0] else m] + times[1..])
  {
    var s := [m] + times;
    var t := [if times[0] > m then times[0] else m] + times[1..];
    forall i | 0 <= i < |t| ensures t[i] in s && exists k :: 0 <= k < |s| && s[k] == t[i] {
      if i == 0 {
        assert t[0] == s[0] || t[0] == s[1];
      } else {
        assert t[i] == s[i + 1];
      }
    }
  }

  lemma LatestPair(m: int, times: seq<int>)
    ensures times == [] ==> Latest([m] + times) == m
    ensures times != [] ==>
              Latest([m] + times) == Latest([if times[0] > m then times[0] else m] + times[1..])
  {
    if times != [] {
      var s := [m] + times;
      var m1 := if times[0] > m then times[0] else m;
      var t := [m1] + times[1..];
      var r := Latest(t);
      forall i | 0 <= i < |s| ensures s[i] <= r {
        assert t[0] <= r && (i >= 2 ==> t[i - 1] <= r);
      }
      assert r in s by {
        var i :| 0 <= i < |t| && t[i] == r;
        if i == 0 {
          assert m1 == s[0] || m1 == s[1];
        } else {
          assert s[i + 1] == r;
        }
      }
      LatestUnique(s, r);
    }
  }

  lemma LatestUnique(times: seq<int>, m: int)
    requires m in times && forall i :: 0 <= i < |times| ==> times[i] <= m
    ensures Latest(times) == m
  {
    hide Latest;
  }

  /** After any sequence of updates with true times in one window, in whatever order they
      arrive, the stored time is that of the latest. */
  lemma LatestWins(times: seq<int>)
    requires times != [] && InWindow(times)
    ensures Updated(0, times) == U32(Latest(times))
  {
    assert [times[0]] + times[1..] == times;
    UpdatesFrom(times[0], times[1..]);
  }

  /** Two times 0x7fffffff apart: the later one is lost if it comes second. */
  lemma LatestLost()
    ensures Updated(0, [1, 0x8000_0000]) == 1
  {
    assert [1, 0x8000_0000][1..] == [0x8000_0000];
    CompareByDifference(0x8000_0000, 1);
    assert Later(1, 0x8000_0000) == 1;
  }

  // ---------------------------------------------------------------- negative times

  /** A timestamp written as a negative number has the image of the wrapped one. */
  lemma NegativeTimestamp(prefix: string, timestamp: int)
    requires IsInt(timestamp) && timestamp < 0
    ensures U32(TimestampOf(prefix + "_TIME" + IntText(timestamp))) == timestamp + WRAP
  {
    hide IntText, TimestampOf, WrittenTime;
    NegativeText(timestamp);
    TimeAfter(prefix, IntText(timestamp));
    NegativeWritten(timestamp);
  }

  lemma NegativeWritten(n: int)
    requires IsInt(n) && n < 0
    ensures WrittenTime(IntText(n)) == n + 0x1_0000_0000_0000_0000
  {
    hide IntText, ToULong, ToLong, Trimmed, WrittenTime, Decimal, Weighted;
    var text := IntText(n);
    NegativeText(n);
    ToLongOfIntText(n);
    WrittenExactly(text);
    NegativeIsNoULong(text);
  }

  lemma NegativeIsNoULong(text: string)
    requires text != [] && text[0] == '-' && Trimmed(text) == text
    ensures ToULong(text) == NotOk
  {
    hide Trimmed, Decimal, Weighted, ToULong;
    ToULongExactly(text);
  }

  lemma NegativeText(n: int)
    requires n < 0
    ensures var s := IntText(n);
            s != [] && s[0] == '-' && Trimmed(s) == s && 'E' !in s
  {
    var s := IntText(n);
    assert s == "-" + NatText(-n);
    DigitsAreVisible(s);
    assert TrimStart(s) == s && TrimEnd(s) == s;
  }

  // ---------------------------------------------------------------- the object

  /** The state shared by KUserTimestamp and KStartupInfo, on X11. */
  class Application {
    var appUserTime: ULong
    var appTime: ULong
    var startupId: string

    constructor ()
      ensures appUserTime == 0 && appTime == 0 && startupId == ""
    {
      appUserTime, appTime := 0, 0;
      startupId := "";
    }

    /** now is the server's time. */
    method UpdateUserTimestamp(time_P: ULong, now: ULong)
      modifies this`appUserTime, this`appTime
      ensures var time := if time_P == 0 then now else time_P;
              && appUserTime == Later(old(appUserTime), time)
              && appTime == Later(old(appTime), time)
    {
      var time := time_P;
      if time == 0 {
        time := now;
      }
      if appUserTime == 0 || Compare(time, appUserTime) > 0 {
        appUserTime := time;
      }
      if appTime == 0 || Compare(time, appTime) > 0 {
        appTime := time;
      }
    }

    method SetStartupId(startup_id: string)
      modifies this
      ensures startupId == if startup_id == "" && old(startupId) != "" then "0" else startup_id
      ensures var time := TimestampOf(startup_id);
              if startup_id == old(startupId) || time == 0
              then appUserTime == old(appUserTime) && appTime == old(appTime)
              else appUserTime == Later(old(appUserTime), time) && appTime == Later(old(appTime), time)
    {
      if startup_id == startupId {
        return;
      }
      if startup_id == "" {
        startupId := "0";
      } else {
        startupId := startup_id;
        var timestamp := TimestampOf(startup_id);
        if timestamp != 0 {
          if appUserTime == 0 || Compare(timestamp, appUserTime) > 0 {
            appUserTime := timestamp;
          }
          if appTime == 0 || Compare(timestamp, appTime) > 0 {
            appTime := timestamp;
          }
        }
      }
    }
  }

  /** A launched application that takes over its startup id and then sees user actions ends up
      with the latest of their times. */
  lemma LaunchThenUse(hostname: string, sec: int, usec: int, pid: int, launch: int, actions: seq<int>)
    requires InWindow([launch] + actions) && '%' !in hostname
    ensures var time := TimestampOf(NewStartupId(hostname, sec, usec, pid, U32(launch)));
            time != 0 && Updated(Later(0, time), actions) == U32(Latest([launch] + actions))
  {
    hide NewStartupId, TimestampOf;
    PlainTimestamp(hostname, sec, usec, pid, U32(launch));
    assert ([launch] + actions)[0] == launch;
    UpdatesFrom(launch, actions);
  }
}
