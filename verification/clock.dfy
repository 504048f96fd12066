/**
 * Wall-clock instants and the three Go layouts the bot renders them in:
 * "20060102-150405" (channel names), "15:04:05" (timeline lines) and
 * "2006-01-02 15:04:05" (headers and footers). Instants are taken to be
 * already expressed in the zone the process formats in; the year is limited
 * to four digits so that every rendering has a fixed width.
 */
module Clock {

  type Year = y: int | 0 <= y <= 9999
  type Month = m: int | 1 <= m <= 12 witness 1
  type Day = d: int | 1 <= d <= 31 witness 1
  type Hour = h: int | 0 <= h <= 23
  type Minute = m: int | 0 <= m <= 59
  type Second = s: int | 0 <= s <= 59

  datatype DateTime = DateTime(year: Year, month: Month, day: Day, hour: Hour, minute: Minute, second: Second)

  /** Go's zero `time.Time`, printed when a display header has no start entry. */
  const Zero := DateTime(1, 1, 1, 0, 0, 0)

  function Digit(n: int): (c: char)
    requires 0 <= n <= 9
    ensures '0' <= c <= '9'
    ensures c as int - '0' as int == n
  {
    (n + '0' as int) as char
  }

  /** Two-digit zero-padded rendering. */
  function Pad2(n: int): (r: string)
    requires 0 <= n <= 99
    ensures |r| == 2
  {
    [Digit(n / 10), Digit(n % 10)]
  }

  /** Four-digit zero-padded rendering. */
  function Pad4(n: int): (r: string)
    requires 0 <= n <= 9999
    ensures |r| == 4
  {
    Pad2(n / 100) + Pad2(n % 100)
  }

  lemma Pad2Injective(a: int, b: int)
    requires 0 <= a <= 99 && 0 <= b <= 99
    requires Pad2(a) == Pad2(b)
    ensures a == b
  {
    assert Pad2(a)[0] == Pad2(b)[0] && Pad2(a)[1] == Pad2(b)[1];
  }

  lemma Pad4Injective(a: int, b: int)
    requires 0 <= a <= 9999 && 0 <= b <= 9999
    requires Pad4(a) == Pad4(b)
    ensures a == b
  {
    assert Pad4(a)[..2] == Pad2(a / 100) && Pad4(b)[..2] == Pad2(b / 100);
    assert Pad4(a)[2..] == Pad2(a % 100) && Pad4(b)[2..] == Pad2(b % 100);
    Pad2Injective(a / 100, b / 100);
    Pad2Injective(a % 100, b % 100);
  }

  /** Layout "20060102-150405". */
  function Stamp(t: DateTime): (r: string)
    ensures |r| == 15
    ensures r[8] == '-'
    ensures forall i :: 0 <= i < 15 && i != 8 ==> '0' <= r[i] <= '9'
  {
    Pad4(t.year) + Pad2(t.month) + Pad2(t.day) + "-" + Pad2(t.hour) + Pad2(t.minute) + Pad2(t.second)
  }

  /** Layout "15:04:05". */
  function TimeOfDay(t: DateTime): (r: string)
    ensures |r| == 8
  {
    Pad2(t.hour) + ":" + Pad2(t.minute) + ":" + Pad2(t.second)
  }

  /** Layout "2006-01-02 15:04:05". */
  function DateAndTime(t: DateTime): (r: string)
    ensures |r| == 19
  {
    Pad4(t.year) + "-" + Pad2(t.month) + "-" + Pad2(t.day) + " " + TimeOfDay(t)
  }

  /** Distinct instants (to the second) have distinct stamps. */
  lemma StampInjective(t: DateTime, u: DateTime)
    requires Stamp(t) == Stamp(u)
    ensures t == u
  {
    var a, b := Stamp(t), Stamp(u);
    assert a[0..4] == Pad4(t.year) && b[0..4] == Pad4(u.year);
    Pad4Injective(t.year, u.year);
    assert a[4..6] == Pad2(t.month) && b[4..6] == Pad2(u.month);
    Pad2Injective(t.month, u.month);
    assert a[6..8] == Pad2(t.day) && b[6..8] == Pad2(u.day);
    Pad2Injective(t.day, u.day);
    var c, d := a[9..], b[9..];
    assert c == Pad2(t.hour) + Pad2(t.minute) + Pad2(t.second);
    assert d == Pad2(u.hour) + Pad2(u.minute) + Pad2(u.second);
    assert c[0..2] == Pad2(t.hour) && d[0..2] == Pad2(u.hour);
    Pad2Injective(t.hour, u.hour);
    assert c[2..4] == Pad2(t.minute) && d[2..4] == Pad2(u.minute);
    Pad2Injective(t.minute, u.minute);
    assert c[4..6] == Pad2(t.second) && d[4..6] == Pad2(u.second);
    Pad2Injective(t.second, u.second);
  }
}
