/**
  `format_minecraft_time`: a world's tick counter shown as in-game days, hours
  and minutes.  A day is 24000 ticks and an hour 1000 ticks; the code uses
  Python's floor division and modulo, which for the positive divisors used here
  coincide with Dafny's `/` and `%`.
 */
module TimeFormat {
  import opened PyValues

  const TicksPerDay := 24000
  const TicksPerHour := 1000

  datatype GameTime = GameTime(days: int, hours: int, minutes: int)

  /** The day, hour and minute a tick counter falls in. */
  function SplitTicks(tick: int): GameTime
  {
    var remaining := tick % TicksPerDay;
    GameTime(tick / TicksPerDay, remaining / TicksPerHour, (remaining % TicksPerHour) * 60 / TicksPerHour)
  }

  /** The text the function builds from a split counter. */
  function Render(g: GameTime): string
  {
    Decimal(g.days) + " 天 " + Decimal(g.hours) + " 小时 " + Decimal(g.minutes) + " 分钟"
  }

  /** `format_minecraft_time(tick)`: "未知时间" when `int(tick)` raises. */
  function FormatMinecraftTime(tick: Tag): (r: string)
    ensures r == "未知时间" <==> ToInt(tick).Raise?
  {
    match ToInt(tick)
    case Ok(t) =>
      var g := SplitTicks(t);
      var shown := Render(g);
      assert shown[0] == Decimal(g.days)[0];
      shown
    case Raise(_) => "未知时间"
  }

  /**
    The split, characterised without division: `days` is the floor of the day
    count (for negative counters too), hours lie in 0..23, minutes in 0..59, and
    the minute is the one the ticks left over after the hour fall in.
   */
  lemma SplitTicksSound(tick: int)
    ensures var g := SplitTicks(tick);
      && g.days * TicksPerDay <= tick < (g.days + 1) * TicksPerDay
      && 0 <= g.hours <= 23
      && 0 <= g.minutes <= 59
      && var rest := tick - g.days * TicksPerDay - g.hours * TicksPerHour;
         0 <= rest < TicksPerHour && g.minutes * TicksPerHour <= rest * 60 < (g.minutes + 1) * TicksPerHour
  {
    var g := SplitTicks(tick);
    var remaining := tick % TicksPerDay;
    assert tick == g.days * TicksPerDay + remaining;
    assert remaining == g.hours * TicksPerHour + remaining % TicksPerHour;
    var sub := remaining % TicksPerHour;
    assert sub * 60 == g.minutes * TicksPerHour + (sub * 60) % TicksPerHour;
  }

  /** Counters that differ by whole days show the same hour and minute. */
  lemma SplitTicksDayShift(tick: int, n: int)
    ensures SplitTicks(tick + n * TicksPerDay) == SplitTicks(tick).(days := SplitTicks(tick).days + n)
  {
    var g := SplitTicks(tick);
    SplitTicksSound(tick);
    var t := tick + n * TicksPerDay;
    assert (g.days + n) * TicksPerDay <= t < (g.days + n + 1) * TicksPerDay;
    assert t % TicksPerDay == tick % TicksPerDay;
  }

  lemma FormatExampleOneDay()
    ensures FormatMinecraftTime(TInt(24000)) == "1 天 0 小时 0 分钟"
  {
    assert SplitTicks(24000) == GameTime(1, 0, 0);
  }

  lemma FormatExampleHalfPast()
    ensures FormatMinecraftTime(TInt(25500)) == "1 天 1 小时 30 分钟"
  {
    assert SplitTicks(25500) == GameTime(1, 1, 30);
    assert Decimal(30) == "30" by { assert NatText(30) == NatText(3) + ['0']; }
  }

  /** One tick before the epoch is the last minute of day -1. */
  lemma FormatExampleNegative()
    ensures FormatMinecraftTime(TInt(-1)) == "-1 天 23 小时 59 分钟"
  {
    assert SplitTicks(-1) == GameTime(-1, 23, 59);
    assert Decimal(23) == "23" by { assert NatText(23) == NatText(2) + ['3']; }
    assert Decimal(59) == "59" by { assert NatText(59) == NatText(5) + ['9']; }
  }

  lemma FormatExampleNotANumber()
    ensures FormatMinecraftTime(TList([])) == "未知时间"
    ensures FormatMinecraftTime(TStr("noon")) == "未知时间"
  {
  }
}
