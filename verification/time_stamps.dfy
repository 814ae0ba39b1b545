/** `DateTimeExtensions.TimeStamp`: whole seconds from 1970-01-01T00:00:00Z
    to an instant, on .NET's DateTime tick scale (100 ns ticks counted from
    0001-01-01). The double-valued `TotalSeconds` is taken as exact, so the
    cast to long is a truncation toward zero of the tick difference. */
module TimeStamps {
  import opened Text

  const TicksPerSecond: int := 10_000_000
  /** DateTime.MaxValue.Ticks (9999-12-31T23:59:59.9999999). */
  const MaxTicks: int := 3_155_378_975_999_999_999
  /** The ticks of 1970-01-01T00:00:00Z. */
  const UnixEpochTicks: int := 621_355_968_000_000_000

  datatype DateTimeKind = Unspecified | Utc | Local

  type Ticks = t: int | 0 <= t <= MaxTicks

  datatype DateTime = DateTime(ticks: Ticks, kind: DateTimeKind)

  /** DateTime.ToUniversalTime: a Utc value is returned as is; a Local or
      Unspecified value is read as local time and shifted by the local
      zone's offset (`localOffsetTicks`, local minus UTC), saturating at
      the ends of the DateTime range. */
  function ToUniversalTime(d: DateTime, localOffsetTicks: int): (u: DateTime)
    ensures u.kind == Utc
    ensures d.kind == Utc ==> u == d
    ensures d.kind != Utc && 0 <= d.ticks - localOffsetTicks <= MaxTicks ==>
              u.ticks == d.ticks - localOffsetTicks
  {
    if d.kind == Utc then d
    else
      var t := d.ticks - localOffsetTicks;
      DateTime(if t < 0 then 0 else if t > MaxTicks then MaxTicks else t, Utc)
  }

  /** Division truncated toward zero, as a C# cast from double to long does
      with the quotient. */
  function TruncDiv(a: int, b: int): (q: int)
    requires b > 0
    ensures a >= 0 ==> q * b <= a < q * b + b
    ensures a < 0 ==> q * b - b < a <= q * b
  {
    if a >= 0 then a / b else -((-a) / b)
  }

  /** TimeStamp(): whole seconds between the UTC instant and the Unix epoch,
      truncated toward zero (so instants before the epoch round up). */
  function TimeStamp(d: DateTime, localOffsetTicks: int): (r: Int64)
    ensures var diff := ToUniversalTime(d, localOffsetTicks).ticks - UnixEpochTicks;
            (diff >= 0 ==> r * TicksPerSecond <= diff < r * TicksPerSecond + TicksPerSecond) &&
            (diff < 0 ==> r * TicksPerSecond - TicksPerSecond < diff <= r * TicksPerSecond)
  {
    TruncDiv(ToUniversalTime(d, localOffsetTicks).ticks - UnixEpochTicks, TicksPerSecond)
  }

  function UtcAt(ticks: Ticks): DateTime {
    DateTime(ticks, Utc)
  }

  /** The epoch itself maps to 0. */
  lemma EpochIsZero(localOffsetTicks: int)
    ensures TimeStamp(UtcAt(UnixEpochTicks), localOffsetTicks) == 0
  {
  }

  /** Every instant within the same whole second after the epoch gives the
      same value. */
  lemma SameSecondSameStamp(s: nat, f: nat, localOffsetTicks: int)
    requires f < TicksPerSecond
    requires UnixEpochTicks + s * TicksPerSecond + f <= MaxTicks
    ensures TimeStamp(UtcAt(UnixEpochTicks + s * TicksPerSecond + f), localOffsetTicks) == s
  {
  }

  /** Truncating a tick count to whole seconds is non-decreasing. */
  lemma TruncSecondsMonotone(a: int, b: int)
    requires a <= b
    ensures TruncDiv(a, TicksPerSecond) <= TruncDiv(b, TicksPerSecond)
  {
  }

  /** A later instant never has a smaller time stamp. */
  lemma TimeStampMonotone(t1: Ticks, t2: Ticks, localOffsetTicks: int)
    requires t1 <= t2
    ensures TimeStamp(UtcAt(t1), localOffsetTicks) <= TimeStamp(UtcAt(t2), localOffsetTicks)
  {
    TruncSecondsMonotone(t1 - UnixEpochTicks, t2 - UnixEpochTicks);
  }

  /** After the epoch, adding k whole seconds adds exactly k. */
  lemma AddSecondsAddsK(t: Ticks, k: nat, localOffsetTicks: int)
    requires UnixEpochTicks <= t && t + k * TicksPerSecond <= MaxTicks
    ensures TimeStamp(UtcAt(t + k * TicksPerSecond), localOffsetTicks)
            == TimeStamp(UtcAt(t), localOffsetTicks) + k
  {
    var s := TimeStamp(UtcAt(t), localOffsetTicks);
    var f := t - UnixEpochTicks - s * TicksPerSecond;
    assert t + k * TicksPerSecond == UnixEpochTicks + (s + k) * TicksPerSecond + f;
    SameSecondSameStamp(s + k, f, localOffsetTicks);
  }

  /** Local time converted to UTC stamps the same as the UTC clock reading
      of that instant: DateTime.Now and DateTime.UtcNow give equal stamps. */
  lemma LocalAndUtcAgree(t: Ticks, localOffsetTicks: int)
    requires 0 <= t - localOffsetTicks <= MaxTicks
    ensures TimeStamp(DateTime(t, Local), localOffsetTicks)
            == TimeStamp(UtcAt(t - localOffsetTicks), localOffsetTicks)
  {
  }

  /** From 2038-01-19T03:14:08Z on, a stamp no longer fits in an int32. */
  lemma Year2038(t: Ticks, localOffsetTicks: int)
    requires t >= UnixEpochTicks + 0x8000_0000 * TicksPerSecond
    ensures TimeStamp(UtcAt(t), localOffsetTicks) > Int32Max
  {
    TruncSecondsMonotone(0x8000_0000 * TicksPerSecond, t - UnixEpochTicks);
  }
}
