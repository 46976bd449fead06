/**
 * The game clock of js/chessClock.js: minutes, seconds and tenths of a second counting down
 * one tenth per tick, its readings in milliseconds, as "MM:SS" and as a time control "M+I".
 * The timer that calls `tick` every 100 ms is left out; `Tick` reports when it would stop it.
 */
module ChessClock {
  import opened Wrappers

  /** The character of a decimal digit. */
  function Digit(d: nat): (c: char)
    requires d < 10
    ensures '0' <= c <= '9' && c as int - '0' as int == d
  {
    ('0' as int + d) as char
  }

  predicate AllDigits(s: string)
  {
    forall i :: 0 <= i < |s| ==> '0' <= s[i] <= '9'
  }

  /** The number a string of decimal digits stands for (the empty string stands for 0). */
  function DecimalValue(s: string): nat
    requires AllDigits(s)
  {
    if |s| == 0 then 0 else DecimalValue(s[..|s| - 1]) * 10 + (s[|s| - 1] as int - '0' as int)
  }

  /** The decimal writing of a number, as JavaScript converts a non-negative integer to a string. */
  function DecimalString(n: nat): (r: string)
    ensures AllDigits(r) && 1 <= |r|
    ensures |r| == 1 <==> n < 10
  {
    if n < 10 then [Digit(n)] else DecimalString(n / 10) + [Digit(n % 10)]
  }

  /** Reading back the decimal writing of a number gives the number. */
  lemma {:induction false} DecimalRoundTrip(n: nat)
    ensures DecimalValue(DecimalString(n)) == n
  {
    if n >= 10 {
      var r := DecimalString(n);
      assert r[..|r| - 1] == DecimalString(n / 10);
      DecimalRoundTrip(n / 10);
    }
  }

  /** One part of getClock: the number, with a leading zero below ten. */
  function Pad2(n: nat): (r: string)
    ensures AllDigits(r) && 2 <= |r|
    ensures n <= 99 ==> |r| == 2
    ensures DecimalValue(r) == n
  {
    DecimalRoundTrip(n);
    if n > 9 then DecimalString(n) else "0" + DecimalString(n)
  }

  /** The first position of `c` in `s`, or |s| when it does not occur. */
  function IndexOf(s: string, c: char): (i: nat)
    ensures i <= |s| && (i < |s| ==> s[i] == c)
    ensures forall j :: 0 <= j < i ==> s[j] != c
  {
    if |s| == 0 then 0 else if s[0] == c then 0 else 1 + IndexOf(s[1..], c)
  }

  /** Reads a time control "M+I" back into its minutes and its increment. */
  function ParseTimeControl(s: string): Option<(nat, nat)>
  {
    var i := IndexOf(s, '+');
    if i < |s| && AllDigits(s[..i]) && AllDigits(s[i + 1..])
    then Some((DecimalValue(s[..i]), DecimalValue(s[i + 1..])))
    else None
  }

  /** Two clock readings with the same number of tenths left are the same reading. */
  lemma TotalInjective(m1: int, s1: int, t1: int, m2: int, s2: int, t2: int)
    requires 0 <= s1 <= 59 && 0 <= t1 <= 9 && 0 <= s2 <= 59 && 0 <= t2 <= 9
    requires (m1 * 60 + s1) * 10 + t1 == (m2 * 60 + s2) * 10 + t2
    ensures m1 == m2 && s1 == s2 && t1 == t2
  {
    var a1, a2 := m1 * 60 + s1, m2 * 60 + s2;
    assert 10 * (a1 - a2) == t2 - t1;
    if a1 != a2 {
      assert false;
    }
    assert 60 * (m1 - m2) == s2 - s1;
    if m1 != m2 {
      assert false;
    }
  }

  class Clock {
    const initialMinutes: nat
    const initialSeconds: nat
    const increment: nat
    var minutes: int
    var seconds: int
    var tensOfSeconds: int

    /** A reading the countdown keeps: minutes not negative, seconds below 60, tenths below 10. */
    ghost predicate Valid()
      reads this
    {
      minutes >= 0 && 0 <= seconds <= 59 && 0 <= tensOfSeconds <= 9
    }

    /** The time left, in tenths of a second. */
    function Total(): int
      reads this
    {
      (minutes * 60 + seconds) * 10 + tensOfSeconds
    }

    /** A clock showing its initial minutes and seconds; the hours argument is not kept. */
    constructor (hours: int, minutes: nat, seconds: nat, increment: nat)
      ensures initialMinutes == minutes && initialSeconds == seconds && this.increment == increment
      ensures this.minutes == minutes && this.seconds == seconds && tensOfSeconds == 0
      ensures seconds <= 59 ==> Valid()
    {
      initialMinutes, initialSeconds := minutes, seconds;
      this.increment := increment;
      this.minutes, this.seconds, tensOfSeconds := minutes, seconds, 0;
    }

    /**
     * getTime as written: the seconds are turned into milliseconds but the tenths are added
     * as if they were milliseconds.
     */
    function GetTime(): (ms: int)
      reads this
      requires Valid()
      ensures ms == GetTimeMs() - 99 * tensOfSeconds
    {
      (minutes * 60 + seconds) * 1000 + tensOfSeconds
    }

    /** The time left in milliseconds, the tenths counted as 100 ms each. */
    function GetTimeMs(): (ms: int)
      reads this
      requires Valid()
      ensures ms == 100 * Total() && ms >= 0
    {
      (minutes * 60 + seconds) * 1000 + tensOfSeconds * 100
    }

    /** getTimeControl: the initial minutes and the increment, read back unchanged from "M+I". */
    function GetTimeControl(): (r: string)
      reads this
      ensures ParseTimeControl(r) == Some((initialMinutes, increment))
    {
      var m, inc := DecimalString(initialMinutes), DecimalString(increment);
      var r := m + "+" + inc;
      assert IndexOf(r, '+') == |m| by {
        IndexOfDigits(m, inc);
      }
      assert r[..|m|] == m && r[|m| + 1..] == inc;
      DecimalRoundTrip(initialMinutes);
      DecimalRoundTrip(increment);
      r
    }

    /** getClock: "MM:SS", each part two digits or more, read back as the clock's minutes and seconds. */
    function GetClock(): (r: string)
      reads this
      requires Valid()
      ensures |r| >= 5 && r[|r| - 3] == ':'
      ensures minutes <= 99 ==> |r| == 5
      ensures AllDigits(r[..|r| - 3]) && DecimalValue(r[..|r| - 3]) == minutes
      ensures AllDigits(r[|r| - 2..]) && DecimalValue(r[|r| - 2..]) == seconds
    {
      var m, s := Pad2(minutes), Pad2(seconds);
      var r := m + ":" + s;
      assert r[..|r| - 3] == m && r[|r| - 2..] == s;
      r
    }

    /**
     * tick: one tenth of a second goes by, borrowing from the seconds and then the minutes;
     * at 0:00.0 the clock stays there and the timer is stopped.
     */
    method Tick() returns (stopped: bool)
      requires Valid()
      modifies this
      ensures Valid()
      ensures Total() == if old(Total()) == 0 then 0 else old(Total()) - 1
      ensures GetTimeMs() == if old(GetTimeMs()) == 0 then 0 else old(GetTimeMs()) - 100
      ensures stopped <==> old(Total()) == 0
      ensures old(Total()) == 0 ==> minutes == 0 && seconds == 0 && tensOfSeconds == 0
    {
      stopped := false;
      tensOfSeconds := tensOfSeconds - 1;
      if tensOfSeconds < 0 {
        tensOfSeconds := 9;
        seconds := seconds - 1;
        if seconds < 0 {
          seconds := 59;
          minutes := minutes - 1;
          if minutes < 0 {
            stopped := true;
            minutes, seconds, tensOfSeconds := 0, 0, 0;
          }
        }
      }
    }

    /** addIncrement: the increment is not applied; the clock is left as it is. */
    method AddIncrement()
      modifies this
      ensures unchanged(this)
    {
    }

    /** reinitiate: back to the initial minutes and seconds, with no tenths. */
    method Reinitiate()
      modifies this
      ensures minutes == initialMinutes && seconds == initialSeconds && tensOfSeconds == 0
      ensures initialSeconds <= 59 ==> Valid() && Total() == initialMinutes * 600 + initialSeconds * 10
    {
      minutes := initialMinutes;
      seconds := initialSeconds;
      tensOfSeconds := 0;
    }
  }

  /** In a string of digits followed by "+", the first "+" is the one after the digits. */
  lemma {:induction false} IndexOfDigits(m: string, rest: string)
    requires AllDigits(m)
    ensures IndexOf(m + "+" + rest, '+') == |m|
  {
    if |m| > 0 {
      assert (m + "+" + rest)[1..] == m[1..] + "+" + rest;
      IndexOfDigits(m[1..], rest);
    }
  }

  /**
   * With getTime as written, a clock at 0:00.5 reports 5 ms instead of 500 ms, and a tick from
   * 0:01.0 to 0:00.9 takes the reading from 1000 ms down to 9 ms.
   */
  lemma GetTimeUndercountsTenths(c: Clock)
    requires c.Valid()
    ensures c.tensOfSeconds > 0 ==> c.GetTime() < c.GetTimeMs()
    ensures c.minutes == 0 && c.seconds == 0 && c.tensOfSeconds == 5 ==> c.GetTime() == 5 && c.GetTimeMs() == 500
    ensures c.minutes == 0 && c.seconds == 1 && c.tensOfSeconds == 0 ==> c.GetTime() == 1000
    ensures c.minutes == 0 && c.seconds == 0 && c.tensOfSeconds == 9 ==> c.GetTime() == 9 && c.GetTimeMs() == 900
  {
  }
}
