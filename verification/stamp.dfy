/** The timestamp part of an object name (gcp.go:25): time.Now() formatted
    with a Go layout string. The clock reading is a parameter. */
module Stamp {

  /** A wall-clock reading, to the second. */
  datatype Clock = Clock(year: int, month: int, day: int, hour: int, minute: int, second: int)
  {
    /** The ranges time.Time produces; years are limited to the four digits
        the layout "2006" prints. */
    predicate Valid()
    {
      && 0 <= year < 10000
      && 1 <= month <= 12
      && 1 <= day <= 31
      && 0 <= hour < 24
      && 0 <= minute < 60
      && 0 <= second < 60
    }
  }

  /** Chronological order of two clock readings. */
  predicate Before(a: Clock, b: Clock)
  {
    || a.year < b.year
    || (a.year == b.year && a.month < b.month)
    || (a.year == b.year && a.month == b.month && a.day < b.day)
    || (a.year == b.year && a.month == b.month && a.day == b.day && a.hour < b.hour)
    || (a.year == b.year && a.month == b.month && a.day == b.day && a.hour == b.hour
        && a.minute < b.minute)
    || (a.year == b.year && a.month == b.month && a.day == b.day && a.hour == b.hour
        && a.minute == b.minute && a.second < b.second)
  }

  /** Lexicographic string order, the order in which a bucket lists names. */
  predicate Less(s: string, t: string)
  {
    if s == [] then t != []
    else t != [] && (s[0] < t[0] || (s[0] == t[0] && Less(s[1..], t[1..])))
  }

  function Digit(d: int): (c: char)
    requires 0 <= d < 10
    ensures '0' <= c <= '9'
  {
    (('0' as int) + d) as char
  }

  function DigitValue(c: char): int
  {
    (c as int) - ('0' as int)
  }

  /** Two zero-padded decimal digits, as Go prints "01", "02", "04", "05". */
  function Pad2(n: int): (s: string)
    requires 0 <= n < 100
    ensures |s| == 2
  {
    [Digit(n / 10), Digit(n % 10)]
  }

  /** Four zero-padded decimal digits, as Go prints "2006". */
  function Pad4(n: int): (s: string)
    requires 0 <= n < 10000
    ensures |s| == 4
  {
    Pad2(n / 100) + Pad2(n % 100)
  }

  function Value2(s: string): int
    requires |s| == 2
  {
    10 * DigitValue(s[0]) + DigitValue(s[1])
  }

  function Value4(s: string): int
    requires |s| == 4
  {
    100 * Value2(s[..2]) + Value2(s[2..])
  }

  /** A dash followed by a two-digit field. */
  function Field(n: int): (s: string)
    requires 0 <= n < 100
    ensures |s| == 3
  {
    "-" + Pad2(n)
  }

  /** The six-field layout "YYYY-FF-FF-FF-FF-FF" both timestamp layouts share. */
  function Layout(year: int, f1: int, f2: int, f3: int, f4: int, f5: int): (s: string)
    requires 0 <= year < 10000
    requires 0 <= f1 < 100 && 0 <= f2 < 100 && 0 <= f3 < 100 && 0 <= f4 < 100 && 0 <= f5 < 100
    ensures |s| == 19
  {
    Pad4(year) + (Field(f1) + (Field(f2) + (Field(f3) + (Field(f4) + Field(f5)))))
  }

  /** The hour as Go's "03" layout element prints it: on a 12-hour clock,
      with 0 and 12 both printed as 12. */
  function Hour12(h: int): (r: int)
    requires 0 <= h < 24
    ensures 1 <= r <= 12 && r % 12 == h % 12
  {
    if h % 12 == 0 then 12 else h % 12
  }

  /** The clock reading with its hour on the 12-hour clock: what the layout
      "2006-01-02-03-04-05" keeps of a reading. */
  function Clock12(c: Clock): (d: Clock)
    requires c.Valid()
    ensures d.Valid()
  {
    c.(hour := Hour12(c.hour))
  }

  /** The timestamp as gcp.go:25 writes it, with layout "2006-01-02-03-04-05":
      the fourth field is the 12-hour hour, with no AM/PM marker. */
  function Timestamp12(c: Clock): (s: string)
    requires c.Valid()
    ensures |s| == 19
  {
    Layout(c.year, c.month, c.day, Hour12(c.hour), c.minute, c.second)
  }

  /** What Timestamp12 keeps: its fields read back as the date, the 12-hour
      hour, the minute and the second. */
  lemma {:induction false} Timestamp12RoundTrip(c: Clock)
    requires c.Valid()
    ensures ParseTimestamp(Timestamp12(c)) == Clock12(c)
  {
    TimestampRoundTrip(Clock12(c));
  }

  /** The corrected timestamp, layout "2006-01-02-15-04-05" (24-hour hour).
      It determines the clock reading it was made from, and it sorts
      as the readings do (TimestampSorts). */
  function Timestamp(c: Clock): (s: string)
    requires c.Valid()
    ensures |s| == 19 && ParseTimestamp(s) == c
  {
    TimestampRoundTrip(c);
    Layout(c.year, c.month, c.day, c.hour, c.minute, c.second)
  }

  /** Reads the six fields back out of a 19-character timestamp. */
  function ParseTimestamp(s: string): Clock
    requires |s| == 19
  {
    Clock(Value4(s[0..4]), Value2(s[5..7]), Value2(s[8..10]),
          Value2(s[11..13]), Value2(s[14..16]), Value2(s[17..19]))
  }

  lemma Pad2RoundTrip(n: int)
    requires 0 <= n < 100
    ensures Value2(Pad2(n)) == n
  {
  }

  lemma Pad4RoundTrip(n: int)
    requires 0 <= n < 10000
    ensures Value4(Pad4(n)) == n
  {
    var s := Pad4(n);
    assert s[..2] == Pad2(n / 100);
    assert s[2..] == Pad2(n % 100);
    Pad2RoundTrip(n / 100);
    Pad2RoundTrip(n % 100);
  }

  lemma TimestampRoundTrip(c: Clock)
    requires c.Valid()
    ensures ParseTimestamp(Layout(c.year, c.month, c.day, c.hour, c.minute, c.second)) == c
  {
    var s := Layout(c.year, c.month, c.day, c.hour, c.minute, c.second);
    assert s[0..4] == Pad4(c.year);
    assert s[5..7] == Pad2(c.month);
    assert s[8..10] == Pad2(c.day);
    assert s[11..13] == Pad2(c.hour);
    assert s[14..16] == Pad2(c.minute);
    assert s[17..19] == Pad2(c.second);
    Pad4RoundTrip(c.year);
    Pad2RoundTrip(c.month);
    Pad2RoundTrip(c.day);
    Pad2RoundTrip(c.hour);
    Pad2RoundTrip(c.minute);
    Pad2RoundTrip(c.second);
  }

  /** Comparing two concatenations whose first parts have equal length:
      the first parts decide unless they are equal. */
  lemma {:induction false} LessAppend(a: string, b: string, x: string, y: string)
    requires |a| == |b|
    ensures Less(a + x, b + y) <==> Less(a, b) || (a == b && Less(x, y))
  {
    if a == [] {
      assert a + x == x && b + y == y;
    } else {
      LessAppend(a[1..], b[1..], x, y);
      assert (a + x)[0] == a[0] && (b + y)[0] == b[0];
      assert (a + x)[1..] == a[1..] + x;
      assert (b + y)[1..] == b[1..] + y;
      assert a == b <==> a[0] == b[0] && a[1..] == b[1..] by {
        if a[0] == b[0] && a[1..] == b[1..] {
          assert a == [a[0]] + a[1..] && b == [b[0]] + b[1..];
        }
      }
    }
  }

  lemma Pad2Order(m: int, n: int)
    requires 0 <= m < 100 && 0 <= n < 100
    ensures Less(Pad2(m), Pad2(n)) <==> m < n
    ensures Pad2(m) == Pad2(n) <==> m == n
  {
    var s, t := Pad2(m), Pad2(n);
    assert s[1..] == [s[1]] && t[1..] == [t[1]];
    assert Less([s[1]], [t[1]]) <==> s[1] < t[1] by {
      assert [s[1]][1..] == [] && [t[1]][1..] == [];
    }
    assert Less(s, t) <==> m / 10 < n / 10 || (m / 10 == n / 10 && m % 10 < n % 10);
    assert m == 10 * (m / 10) + m % 10 && n == 10 * (n / 10) + n % 10;
    Pad2RoundTrip(m);
    Pad2RoundTrip(n);
  }

  lemma FieldOrder(m: int, n: int)
    requires 0 <= m < 100 && 0 <= n < 100
    ensures Less(Field(m), Field(n)) <==> m < n
    ensures Field(m) == Field(n) <==> m == n
  {
    LessAppend("-", "-", Pad2(m), Pad2(n));
    Pad2Order(m, n);
    assert !Less("-", "-");
    if Field(m) == Field(n) {
      assert Pad2(m) == Field(m)[1..] == Field(n)[1..] == Pad2(n);
    }
  }

  lemma Pad4Order(m: int, n: int)
    requires 0 <= m < 10000 && 0 <= n < 10000
    ensures Less(Pad4(m), Pad4(n)) <==> m < n
    ensures Pad4(m) == Pad4(n) <==> m == n
  {
    LessAppend(Pad2(m / 100), Pad2(n / 100), Pad2(m % 100), Pad2(n % 100));
    Pad2Order(m / 100, n / 100);
    Pad2Order(m % 100, n % 100);
    Pad4RoundTrip(m);
    Pad4RoundTrip(n);
  }

  /** Comparing a field followed by a tail: the field decides unless equal. */
  lemma FieldThen(m: int, n: int, x: string, y: string)
    requires 0 <= m < 100 && 0 <= n < 100
    ensures Less(Field(m) + x, Field(n) + y) <==> m < n || (m == n && Less(x, y))
  {
    LessAppend(Field(m), Field(n), x, y);
    FieldOrder(m, n);
  }

  /** Corrected timestamps sort exactly as the clock readings do. */
  lemma TimestampSorts(a: Clock, b: Clock)
    requires a.Valid() && b.Valid()
    ensures Less(Timestamp(a), Timestamp(b)) <==> Before(a, b)
  {
    var t4 := Field(a.minute) + Field(a.second);
    var u4 := Field(b.minute) + Field(b.second);
    var t3 := Field(a.hour) + t4;
    var u3 := Field(b.hour) + u4;
    var t2 := Field(a.day) + t3;
    var u2 := Field(b.day) + u3;
    var t1 := Field(a.month) + t2;
    var u1 := Field(b.month) + u2;
    FieldThen(a.minute, b.minute, Field(a.second), Field(b.second));
    FieldOrder(a.second, b.second);
    FieldThen(a.hour, b.hour, t4, u4);
    FieldThen(a.day, b.day, t3, u3);
    FieldThen(a.month, b.month, t2, u2);
    LessAppend(Pad4(a.year), Pad4(b.year), t1, u1);
    Pad4Order(a.year, b.year);
  }

  /** Distinct clock readings give distinct corrected timestamps. */
  lemma TimestampInjective(a: Clock, b: Clock)
    requires a.Valid() && b.Valid() && Timestamp(a) == Timestamp(b)
    ensures a == b
  {
  }

  /** As written, 01:00:00 and 13:00:00 of the same day give the same
      timestamp. */
  lemma Timestamp12Collides()
    ensures Clock(2024, 1, 1, 1, 0, 0).Valid() && Clock(2024, 1, 1, 13, 0, 0).Valid()
    ensures Timestamp12(Clock(2024, 1, 1, 1, 0, 0)) == Timestamp12(Clock(2024, 1, 1, 13, 0, 0))
  {
  }

  /** As written, noon sorts after one o'clock in the afternoon of the same
      day, although it comes first. */
  lemma Timestamp12Unsorted()
    ensures Clock(2024, 1, 1, 12, 0, 0).Valid() && Clock(2024, 1, 1, 13, 0, 0).Valid()
    ensures Before(Clock(2024, 1, 1, 12, 0, 0), Clock(2024, 1, 1, 13, 0, 0))
    ensures Less(Timestamp12(Clock(2024, 1, 1, 13, 0, 0)), Timestamp12(Clock(2024, 1, 1, 12, 0, 0)))
  {
    var noon, one := Clock(2024, 1, 1, 12, 0, 0), Clock(2024, 1, 1, 13, 0, 0);
    assert Hour12(noon.hour) == 12 && Hour12(one.hour) == 1;
    TimestampPrefix12(one, noon);
  }

  /** Two 12-hour timestamps of the same day compare by their hour field
      first. */
  lemma TimestampPrefix12(a: Clock, b: Clock)
    requires a.Valid() && b.Valid()
    requires a.year == b.year && a.month == b.month && a.day == b.day
    ensures Hour12(a.hour) < Hour12(b.hour) ==> Less(Timestamp12(a), Timestamp12(b))
  {
    var t3 := Field(Hour12(a.hour)) + (Field(a.minute) + Field(a.second));
    var u3 := Field(Hour12(b.hour)) + (Field(b.minute) + Field(b.second));
    var t1 := Field(a.month) + (Field(a.day) + t3);
    var u1 := Field(b.month) + (Field(b.day) + u3);
    FieldThen(Hour12(a.hour), Hour12(b.hour), Field(a.minute) + Field(a.second), Field(b.minute) + Field(b.second));
    FieldThen(a.day, b.day, t3, u3);
    FieldThen(a.month, b.month, Field(a.day) + t3, Field(b.day) + u3);
    LessAppend(Pad4(a.year), Pad4(b.year), t1, u1);
    Pad4Order(a.year, b.year);
  }
}
