// The turn clock shared by both versions of the game: `Game.endTurn` in
// web/game.js and `Engine.process_turn` in src/systems/engine.py advance it
// the same way, and both name the time of day with the same four periods.

module Clocks {

  import opened Util

  /** `turnCount++`, then every 60th turn `hour++`, wrapping from 24 to 0 on a new day. */
  function Clock(turn: int, hour: int, day: int): (r: (int, int, int))
  {
    var t := turn + 1;
    if t % 60 != 0 then (t, hour, day)
    else if hour + 1 >= 24 then (t, 0, day + 1)
    else (t, hour + 1, day)
  }

  /** The clock keeps the hour within [0, 24), moves the hour only on a
      multiple of 60 turns, and starts a new day only on the wrap from 23. */
  lemma ClockShape(turn: int, hour: int, day: int)
    requires 0 <= hour < 24
    ensures var (t, h, d) := Clock(turn, hour, day);
      t == turn + 1 && 0 <= h < 24
      && (t % 60 != 0 ==> h == hour && d == day)
      && (t % 60 == 0 ==> h == (hour + 1) % 24)
      && (d == day + 1 <==> t % 60 == 0 && hour == 23)
      && (d == day || d == day + 1)
  {
  }

  /** `getTimePeriod`: morning [6, 12), day [12, 18), evening [18, 21), night otherwise. */
  function TimePeriod(hour: int): (s: string)
    ensures s == "아침" <==> 6 <= hour < 12
    ensures s == "낮" <==> 12 <= hour < 18
    ensures s == "저녁" <==> 18 <= hour < 21
    ensures s == "밤" <==> hour < 6 || hour >= 21
  {
    if 6 <= hour < 12 then "아침"
    else if 12 <= hour < 18 then "낮"
    else if 18 <= hour < 21 then "저녁"
    else "밤"
  }

  /** `f"{hour:02d}"`: the decimal rendering, zero-padded on the left to two
      characters; a sign counts towards the width. */
  function Pad2(n: int): (s: string)
    ensures |s| >= 2
    ensures 0 <= n < 100 ==> |s| == 2
    ensures n >= 0 ==> AllDigits(s) && DecimalValue(s) == n
    ensures n < 0 ==> s[0] == '-' && AllDigits(s[1..]) && DecimalValue(s[1..]) == -n
  {
    IntToStringValue(n);
    if 0 <= n < 10 then
      assert DecimalValue("0" + NatToString(n)[..0]) == 0;
      "0" + NatToString(n)
    else
      NatToStringValue(if n < 0 then -n else n);
      IntToString(n)
  }

  /** `get_time_string`: "Day d, hh:00" — the day's digits after "Day ",
      then ", ", the padded hour and ":00". */
  function TimeString(day: int, hour: int): (s: string)
    ensures |s| >= 12 && s[..4] == "Day " && s[|s| - 3..] == ":00"
    ensures 0 <= hour < 100 ==> s[|s| - 5..|s| - 3] == Pad2(hour) && s[|s| - 7..|s| - 5] == ", "
    ensures 0 <= hour < 100 && day >= 0 ==>
      AllDigits(s[4..|s| - 7]) && DecimalValue(s[4..|s| - 7]) == day
  {
    IntToStringValue(day);
    TimePieces(IntToString(day), Pad2(hour));
    "Day " + IntToString(day) + ", " + Pad2(hour) + ":00"
  }

  /** Where the pieces of the time string sit. */
  lemma TimePieces(d: string, h: string)
    ensures var s := "Day " + d + ", " + h + ":00";
      s[..4] == "Day " && s[|s| - 3..] == ":00"
      && (|h| == 2 ==> s[|s| - 5..|s| - 3] == h && s[|s| - 7..|s| - 5] == ", " && s[4..|s| - 7] == d)
  {
    var s := "Day " + d + ", " + h + ":00";
    assert s[..4] == "Day ";
    assert s[|s| - 3..] == ":00";
    if |h| == 2 {
      assert s[|s| - 5..|s| - 3] == h;
      assert s[|s| - 7..|s| - 5] == ", ";
      assert s[4..|s| - 7] == d;
    }
  }
}
