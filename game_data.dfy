/**
 * The save-slot record (Core/GameData/GameData.cs): its defaults and the play-time
 * text shown in the UI. The player record and the two timestamps are not part of
 * this model.
 */
module GameData {
  import opened SceneExtensionManager
  import Numerics

  datatype GameData = GameData(version: int, slotId: int, playTimeSeconds: real, currentLevel: TowerLevel)

  /** A new record: version 1, slot 0, no play time, at Level0. */
  function NewGameData(): (g: GameData)
    ensures g.version == 1 && g.currentLevel == Level0 && g.playTimeSeconds == 0.0
  {
    GameData(1, 0, 0.0, Level0)
  }

  /** C#'s integer division, which truncates toward zero. */
  function Quot(a: int, b: int): (q: int)
    requires b > 0
    ensures a >= 0 ==> q == a / b && 0 <= a - q * b < b
    ensures a < 0 ==> -b < a - q * b <= 0
  {
    if a >= 0 then a / b else -((-a) / b)
  }

  /** C#'s `%`, whose result takes the sign of the dividend. */
  function Rem(a: int, b: int): (r: int)
    requires b > 0
    ensures a == Quot(a, b) * b + r
    ensures a >= 0 ==> 0 <= r < b
    ensures a < 0 ==> -b < r <= 0
  {
    if a >= 0 then a % b else -((-a) % b)
  }

  /** The whole seconds of TimeSpan.FromSeconds(t): the fraction is dropped toward zero. */
  function WholeSeconds(t: real): (n: int)
    ensures 0.0 <= t ==> n as real <= t < n as real + 1.0
    ensures t < 0.0 ==> n as real - 1.0 < t <= n as real
  {
    Numerics.TruncateTowardZero(t)
  }

  /** The TimeSpan components Hours (0..23 or its negative), Minutes and Seconds. */
  datatype Clock = Clock(hours: int, minutes: int, seconds: int)

  function ClockOf(total: int): (c: Clock)
    ensures total >= 0 ==> 0 <= c.hours < 24 && 0 <= c.minutes < 60 && 0 <= c.seconds < 60
    ensures total < 0 ==> c.hours <= 0
  {
    Clock(Rem(Quot(total, 3600), 24), Rem(Quot(total, 60), 60), Rem(total, 60))
  }

  /** For a non-negative total, the components add back up to the time of day in seconds. */
  lemma DayRemainder(total: nat)
    ensures var c := ClockOf(total);
      c.hours * 3600 + c.minutes * 60 + c.seconds == total % 86400
  {
    var d := total % 86400;
    assert total == (total / 86400) * 86400 + d;
    assert total / 3600 == (total / 86400) * 24 + d / 3600;
    assert (total / 3600) % 24 == d / 3600;
    assert total / 60 == (total / 86400) * 1440 + d / 60;
    assert (total / 60) % 60 == (d / 60) % 60;
    assert total % 60 == d % 60;
    assert d / 60 == (d / 3600) * 60 + (d / 60) % 60;
  }

  function Digit(d: int): char
    requires 0 <= d < 10
  {
    ('0' as int + d) as char
  }

  function DigitValue(c: char): int
  {
    c as int - '0' as int
  }

  /** A natural number in decimal. */
  function Decimal(n: nat): (s: string)
    ensures |s| >= 1
  {
    if n < 10 then [Digit(n)] else Decimal(n / 10) + [Digit(n % 10)]
  }

  /** `ToString("D2")`: at least two digits, a minus sign in front of a negative number. */
  function D2(n: int): (s: string)
    ensures 0 <= n < 100 ==> s == [Digit(n / 10), Digit(n % 10)]
    ensures n < 0 ==> s == "-" + PadTwo(-n)
  {
    if n < 0 then "-" + PadTwo(-n) else PadTwo(n)
  }

  /** At least two digits, with a leading zero below ten. */
  function PadTwo(n: nat): (s: string)
    ensures n < 100 ==> s == [Digit(n / 10), Digit(n % 10)]
  {
    if n < 10 then ['0', Digit(n)]
    else
      assert n < 100 ==> Decimal(n / 10) == [Digit(n / 10)];
      Decimal(n)
  }

  /** GetFormattedPlayTime: HH:MM:SS when the hours component is positive, MM:SS otherwise. */
  function FormatPlayTime(t: real): (s: string)
    ensures t >= 0.0 && ClockOf(WholeSeconds(t)).hours > 0 ==> |s| == 8 && s[2] == ':' && s[5] == ':'
    ensures t >= 0.0 && ClockOf(WholeSeconds(t)).hours == 0 ==> |s| == 5 && s[2] == ':'
  {
    var c := ClockOf(WholeSeconds(t));
    if c.hours > 0 then D2(c.hours) + ":" + D2(c.minutes) + ":" + D2(c.seconds)
    else D2(c.minutes) + ":" + D2(c.seconds)
  }

  /** Reads a two-digit group back. */
  function Group(s: string): int
    requires |s| == 2
  {
    DigitValue(s[0]) * 10 + DigitValue(s[1])
  }

  /** Reads the clock text back into seconds. */
  function ParseClock(s: string): int
  {
    if |s| == 8 then Group(s[0..2]) * 3600 + Group(s[3..5]) * 60 + Group(s[6..8])
    else if |s| == 5 then Group(s[0..2]) * 60 + Group(s[3..5])
    else 0
  }

  lemma GroupOfD2(n: int)
    requires 0 <= n < 100
    ensures Group(D2(n)) == n
  {
  }

  /**
   * For non-negative play time the text reads back as the time of day in whole
   * seconds: whole days are lost, nothing else is.
   */
  lemma FormatReadsBack(t: real)
    requires t >= 0.0
    ensures ParseClock(FormatPlayTime(t)) == WholeSeconds(t) % 86400
  {
    var c := ClockOf(WholeSeconds(t));
    var s := FormatPlayTime(t);
    DayRemainder(WholeSeconds(t));
    GroupOfD2(c.hours);
    GroupOfD2(c.minutes);
    GroupOfD2(c.seconds);
    if c.hours > 0 {
      assert s == D2(c.hours) + ":" + D2(c.minutes) + ":" + D2(c.seconds);
      assert s[0..2] == D2(c.hours) && s[3..5] == D2(c.minutes) && s[6..8] == D2(c.seconds);
    } else {
      assert s == D2(c.minutes) + ":" + D2(c.seconds);
      assert s[0..2] == D2(c.minutes) && s[3..5] == D2(c.seconds);
    }
  }

  /** One whole day shows as "00:00"; a day and an hour as "01:00:00". */
  lemma WholeDaysAreDropped()
    ensures FormatPlayTime(86400.0) == "00:00"
    ensures FormatPlayTime(90000.0) == "01:00:00"
  {
    assert WholeSeconds(86400.0) == 86400;
    assert WholeSeconds(90000.0) == 90000;
  }

  /** A negative play time keeps its sign in each group: -5 s shows as "00:-05". */
  lemma NegativeTimeShowsSigns()
    ensures FormatPlayTime(-5.0) == "00:-05"
  {
    assert WholeSeconds(-5.0) == -5;
    assert ClockOf(-5) == Clock(0, 0, -5);
  }
}
