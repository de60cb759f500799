/**
 * The parts of Python's `datetime` that the vendor adapters rely on.
 *
 * A `timedelta` is an exact whole number of microseconds, as in CPython; a naive
 * UTC `datetime` is held as microseconds since the POSIX epoch, so that
 * subtracting two of them is exact. Calendars and time zones are not modelled:
 * converting an instant to the wall-clock fields of a zone (`fromtimestamp(s, tz)`)
 * is a parameter `toLocal` of every operation that renders a time. What is
 * modelled is `strftime`, directive by directive, over those fields.
 */
module PyDatetime {

  /** `datetime.timedelta`, in microseconds. */
  datatype Timedelta = Timedelta(micros: int)

  /** A naive UTC `datetime`, in microseconds since 1970-01-01 00:00:00. */
  datatype Datetime = Datetime(micros: int)

  const MicrosPerSecond: int := 1_000_000

  /** `datetime.utcfromtimestamp(0)` */
  const Epoch: Datetime := Datetime(0)

  /** `a - b` on two datetimes. */
  function Sub(a: Datetime, b: Datetime): Timedelta
  {
    Timedelta(a.micros - b.micros)
  }

  /** `d + e` on two timedeltas. */
  function Add(d: Timedelta, e: Timedelta): Timedelta
  {
    Timedelta(d.micros + e.micros)
  }

  /** `timedelta(minutes=m)` */
  function Minutes(m: int): Timedelta
  {
    Timedelta(m * 60 * MicrosPerSecond)
  }

  /** `timedelta.total_seconds()`, read as an exact real rather than a float. */
  function TotalSeconds(d: Timedelta): real
  {
    d.micros as real / 1_000_000.0
  }

  /** Python's `int(x)` on a float: it truncates toward zero. */
  function Trunc(x: real): (r: int)
    ensures 0.0 <= x ==> 0 <= r && r as real <= x < r as real + 1.0
    ensures x < 0.0 ==> r <= 0 && r as real - 1.0 < x <= r as real
  {
    if x >= 0.0 then x.Floor else -((-x).Floor)
  }

  /** Truncating `m / d` taken as a real is the integer quotient rounded toward zero. */
  lemma TruncOfQuotient(m: int, d: int)
    requires 0 < d
    ensures m >= 0 ==> Trunc(m as real / d as real) == m / d
    ensures m < 0 ==> Trunc(m as real / d as real) == -((-m) / d)
  {
    var x := m as real / d as real;
    assert x * d as real == m as real;
    if m >= 0 {
      var q, r := m / d, m % d;
      assert q as real * d as real + r as real == m as real;
      assert q as real <= x < q as real + 1.0 by {
        QuotientBracket(q, r, d, x);
      }
    } else {
      var q, r := (-m) / d, (-m) % d;
      assert q as real * d as real + r as real == -m as real;
      assert q as real <= -x < q as real + 1.0 by {
        QuotientBracket(q, r, d, -x);
      }
    }
  }

  /** If `x * d == q * d + r` with `0 <= r < d`, then `x` lies in `[q, q + 1)`. */
  lemma QuotientBracket(q: int, r: int, d: int, x: real)
    requires 0 < d && 0 <= r < d
    requires x * d as real == q as real * d as real + r as real
    ensures q as real <= x < q as real + 1.0
  {
    var dr, y := d as real, x - q as real;
    assert y * dr == r as real;
    assert y == r as real / dr;
    assert r as real / dr < 1.0;
  }

  /** The wall-clock fields of an instant in some zone: what `strftime` reads. */
  datatype LocalTime = LocalTime(year: nat, month: nat, day: nat, hour: nat, minute: nat, second: nat)

  /** The zones the adapters render in; `SystemLocal` is `fromtimestamp` without a zone. */
  datatype Zone = Utc | UsEastern | EuropeZurich | SystemLocal

  /** One element of a `strftime` format: a literal character or a `%` directive. */
  datatype Directive = Literal(c: char) | Year | Month | Day | Hour | Minute | Second

  /** `'%Y-%m-%d %H:%M:%S'` */
  const DateTimeFormat: seq<Directive> :=
    [Year, Literal('-'), Month, Literal('-'), Day, Literal(' '), Hour, Literal(':'), Minute, Literal(':'), Second]

  /** `'%Y-%m-%d'` */
  const DateFormat: seq<Directive> := [Year, Literal('-'), Month, Literal('-'), Day]

  /** `'%H:%M:%S'` */
  const TimeFormat: seq<Directive> := [Hour, Literal(':'), Minute, Literal(':'), Second]

  function DigitChar(n: nat): (c: char)
    requires n < 10
    ensures '0' <= c <= '9'
  {
    ('0' as int + n) as char
  }

  /** The decimal digits of `n`, most significant first. */
  function Decimal(n: nat): (s: string)
    ensures 1 <= |s|
    ensures forall i :: 0 <= i < |s| ==> '0' <= s[i] <= '9'
  {
    if n < 10 then [DigitChar(n)] else Decimal(n / 10) + [DigitChar(n % 10)]
  }

  /** `k` zero characters. */
  function Zeros(k: nat): (s: string)
    ensures |s| == k
    ensures forall i :: 0 <= i < |s| ==> s[i] == '0'
  {
    if k == 0 then [] else ['0'] + Zeros(k - 1)
  }

  /** `n` in decimal, left-padded with zeros to at least `width` characters. */
  function ZeroPad(n: nat, width: nat): (s: string)
    ensures width <= |s|
    ensures forall i :: 0 <= i < |s| ==> '0' <= s[i] <= '9'
  {
    var digits := Decimal(n);
    if width <= |digits| then digits else Zeros(width - |digits|) + digits
  }

  function Render1(t: LocalTime, d: Directive): string
  {
    match d
    case Literal(c) => [c]
    case Year => ZeroPad(t.year, 4)
    case Month => ZeroPad(t.month, 2)
    case Day => ZeroPad(t.day, 2)
    case Hour => ZeroPad(t.hour, 2)
    case Minute => ZeroPad(t.minute, 2)
    case Second => ZeroPad(t.second, 2)
  }

  /** `strftime`: each directive rendered in turn. */
  function Strftime(t: LocalTime, format: seq<Directive>): string
  {
    if format == [] then "" else Render1(t, format[0]) + Strftime(t, format[1..])
  }

  /** Rendering a concatenated format renders each part and concatenates the results. */
  lemma {:induction false} StrftimeAppend(t: LocalTime, f: seq<Directive>, g: seq<Directive>)
    ensures Strftime(t, f + g) == Strftime(t, f) + Strftime(t, g)
  {
    if f == [] {
      assert f + g == g;
    } else {
      assert (f + g)[1..] == f[1..] + g;
      StrftimeAppend(t, f[1..], g);
    }
  }

  /** The full timestamp is the date, a space and the time, for every instant. */
  lemma DateTimeIsDateSpaceTime(t: LocalTime)
    ensures Strftime(t, DateTimeFormat) == Strftime(t, DateFormat) + " " + Strftime(t, TimeFormat)
  {
    assert DateTimeFormat == DateFormat + ([Literal(' ')] + TimeFormat);
    StrftimeAppend(t, DateFormat, [Literal(' ')] + TimeFormat);
    StrftimeAppend(t, [Literal(' ')], TimeFormat);
    assert Strftime(t, [Literal(' ')]) == " ";
  }

  function Pow10(k: nat): nat
  {
    if k == 0 then 1 else 10 * Pow10(k - 1)
  }

  /** A number below `10^width` has at most `width` decimal digits. */
  lemma {:induction false} DecimalFits(n: nat, width: nat)
    requires 1 <= width && n < Pow10(width)
    ensures |Decimal(n)| <= width
  {
    if 10 <= n {
      assert 2 <= width;
      DecimalFits(n / 10, width - 1);
    }
  }

  /** Zero-padding a number that fits gives exactly `width` digits. */
  lemma ZeroPadExact(n: nat, width: nat)
    requires 1 <= width && n < Pow10(width)
    ensures |ZeroPad(n, width)| == width
  {
    DecimalFits(n, width);
  }

  /** The fields a wall-clock time can have: a four-digit year and two-digit other fields. */
  predicate FieldsFit(t: LocalTime)
  {
    t.year < 10000 && t.month < 100 && t.day < 100 && t.hour < 100 && t.minute < 100 && t.second < 100
  }

  /** A number, a separator, a number, the same separator and a number, each number of two or more digits. */
  ghost predicate Separated(s: string, sep: char, first: nat)
  {
    && |s| == first + 6 && s[first] == sep && s[first + 3] == sep
    && forall i :: 0 <= i < |s| && i != first && i != first + 3 ==> '0' <= s[i] <= '9'
  }

  lemma SeparatedJoin(x: string, y: string, z: string, sep: char)
    requires 1 <= |x| && |y| == 2 && |z| == 2
    requires forall i :: 0 <= i < |x| ==> '0' <= x[i] <= '9'
    requires forall i :: 0 <= i < |y| ==> '0' <= y[i] <= '9'
    requires forall i :: 0 <= i < |z| ==> '0' <= z[i] <= '9'
    ensures Separated(x + ([sep] + (y + ([sep] + z))), sep, |x|)
  {
    var s := x + ([sep] + (y + ([sep] + z)));
    forall i | 0 <= i < |s| && i != |x| && i != |x| + 3
      ensures '0' <= s[i] <= '9'
    {
      if i < |x| {
        assert s[i] == x[i];
      } else if i < |x| + 3 {
        assert s[i] == y[i - |x| - 1];
      } else {
        assert s[i] == z[i - |x| - 4];
      }
    }
  }

  /** `'%Y-%m-%d'` renders as `YYYY-mm-dd`. */
  lemma DateShape(t: LocalTime)
    requires FieldsFit(t)
    ensures Separated(Strftime(t, DateFormat), '-', 4)
  {
    ZeroPadExact(t.year, 4);
    ZeroPadExact(t.month, 2);
    ZeroPadExact(t.day, 2);
    StrftimeOfFive(t, Year, Literal('-'), Month, Literal('-'), Day);
    SeparatedJoin(ZeroPad(t.year, 4), ZeroPad(t.month, 2), ZeroPad(t.day, 2), '-');
  }

  /** `'%H:%M:%S'` renders as `HH:MM:SS`. */
  lemma TimeShape(t: LocalTime)
    requires FieldsFit(t)
    ensures Separated(Strftime(t, TimeFormat), ':', 2)
  {
    ZeroPadExact(t.hour, 2);
    ZeroPadExact(t.minute, 2);
    ZeroPadExact(t.second, 2);
    StrftimeOfFive(t, Hour, Literal(':'), Minute, Literal(':'), Second);
    SeparatedJoin(ZeroPad(t.hour, 2), ZeroPad(t.minute, 2), ZeroPad(t.second, 2), ':');
  }

  /**
   * A rendered timestamp is 19 characters long, `YYYY-mm-dd HH:MM:SS`, with the
   * separators at fixed places and digits everywhere else.
   */
  lemma RenderedShape(t: LocalTime)
    requires FieldsFit(t)
    ensures var s := Strftime(t, DateTimeFormat);
      && |s| == 19
      && s[4] == '-' && s[7] == '-' && s[10] == ' ' && s[13] == ':' && s[16] == ':'
      && forall i :: 0 <= i < 19 && i != 4 && i != 7 && i != 10 && i != 13 && i != 16 ==> '0' <= s[i] <= '9'
  {
    var date, time := Strftime(t, DateFormat), Strftime(t, TimeFormat);
    DateShape(t);
    TimeShape(t);
    DateTimeIsDateSpaceTime(t);
    var s := Strftime(t, DateTimeFormat);
    assert s == date + " " + time;
    forall i | 0 <= i < 19 && i != 4 && i != 7 && i != 10 && i != 13 && i != 16
      ensures '0' <= s[i] <= '9'
    {
      if i < 10 {
        assert s[i] == date[i];
      } else {
        assert s[i] == time[i - 11];
      }
    }
  }

  lemma StrftimeOfFive(t: LocalTime, a: Directive, b: Directive, c: Directive, d: Directive, e: Directive)
    ensures Strftime(t, [a, b, c, d, e]) == Render1(t, a) + (Render1(t, b) + (Render1(t, c) + (Render1(t, d) + Render1(t, e))))
  {
    var f := [a, b, c, d, e];
    assert f[1..] == [b, c, d, e];
    assert [b, c, d, e][1..] == [c, d, e];
    assert [c, d, e][1..] == [d, e];
    assert [d, e][1..] == [e];
    assert [e][1..] == [];
    assert Strftime(t, [e]) == Render1(t, e) + "";
    assert Render1(t, e) + "" == Render1(t, e);
    assert Strftime(t, [d, e]) == Render1(t, d) + Strftime(t, [e]);
    assert Strftime(t, [c, d, e]) == Render1(t, c) + Strftime(t, [d, e]);
    assert Strftime(t, [b, c, d, e]) == Render1(t, b) + Strftime(t, [c, d, e]);
  }

  /** `datetime.fromtimestamp(seconds, zone).strftime('%Y-%m-%d %H:%M:%S')` */
  function Render(toLocal: (Zone, real) -> LocalTime, zone: Zone, seconds: real): string
  {
    Strftime(toLocal(zone, seconds), DateTimeFormat)
  }
}
