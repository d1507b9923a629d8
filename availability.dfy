/**
 * The working-hours gate: whether the current UTC hour falls in the
 * configured half-open range of hours.  The day of the week and the time
 * zone are not consulted.
 */
module Availability {
  import opened Wrappers
  import opened JsValue
  import Config

  const MS_PER_HOUR: int := 60 * 60 * 1000
  const MS_PER_DAY: int := 24 * MS_PER_HOUR

  /** `new Date(nowMs).getUTCHours()`. */
  function UtcHour(nowMs: int): (h: int)
    ensures 0 <= h < 24
  {
    (nowMs / MS_PER_HOUR) % 24
  }

  /** `cfg.workingHours?.startHour ?? 0`, as the number the comparison sees. */
  function StartHour(cfg: JsVal): (s: JsVal)
    ensures s.Num? || s.NaN?
  {
    ToNumber(Nullish(Get(Get(cfg, "workingHours"), "startHour"), Num(0)))
  }

  /** `cfg.workingHours?.endHour ?? 24`, as the number the comparison sees. */
  function EndHour(cfg: JsVal): (e: JsVal)
    ensures e.Num? || e.NaN?
  {
    ToNumber(Nullish(Get(Get(cfg, "workingHours"), "endHour"), Num(24)))
  }

  /**
   * `isWithinWorkingHours(now, cfg)`: `start <= hour < end`, where a
   * comparison with NaN is false; reading `workingHours` of a missing
   * configuration throws.
   */
  function IsWithinWorkingHours(nowMs: int, cfg: JsVal): (r: Result<bool, string>)
    ensures r.Err? <==> cfg.Undefined? || cfg.Null?
    ensures r.Ok? && StartHour(cfg).Num? && EndHour(cfg).Num? ==>
              (r.value <==> StartHour(cfg).n <= UtcHour(nowMs) < EndHour(cfg).n)
    ensures r.Ok? && (StartHour(cfg).NaN? || EndHour(cfg).NaN?) ==> !r.value
  {
    if cfg.Undefined? || cfg.Null? then Err("TypeError: Cannot read properties of " + ToStr(cfg))
    else
      var hour := UtcHour(nowMs);
      var start := StartHour(cfg);
      var end := EndHour(cfg);
      Ok(start.Num? && hour >= start.n && end.Num? && hour < end.n)
  }

  /** Without `startHour` and `endHour` every hour is a working hour. */
  lemma DefaultsAlwaysOpen(nowMs: int, cfg: JsVal)
    requires !cfg.Undefined? && !cfg.Null?
    requires Get(Get(cfg, "workingHours"), "startHour") == Undefined
    requires Get(Get(cfg, "workingHours"), "endHour") == Undefined
    ensures IsWithinWorkingHours(nowMs, cfg) == Ok(true)
  {
  }

  /** The range from 0 to 24 holds every hour. */
  lemma WholeDayOpen(nowMs: int, cfg: JsVal)
    requires !cfg.Undefined? && !cfg.Null?
    requires StartHour(cfg) == Num(0) && EndHour(cfg) == Num(24)
    ensures IsWithinWorkingHours(nowMs, cfg) == Ok(true)
  {
  }

  /** A range whose start is not below its end is never open. */
  lemma EmptyRangeNeverOpen(nowMs: int, cfg: JsVal)
    requires !cfg.Undefined? && !cfg.Null?
    requires StartHour(cfg).Num? && EndHour(cfg).Num? && StartHour(cfg).n >= EndHour(cfg).n
    ensures IsWithinWorkingHours(nowMs, cfg) == Ok(false)
  {
  }

  lemma {:induction false} HourAfterDays(nowMs: int, days: nat)
    ensures UtcHour(nowMs + days * MS_PER_DAY) == UtcHour(nowMs)
  {
    if days > 0 {
      HourAfterDays(nowMs, days - 1);
      var earlier := nowMs + (days - 1) * MS_PER_DAY;
      assert nowMs + days * MS_PER_DAY == earlier + 24 * MS_PER_HOUR;
      assert (earlier + 24 * MS_PER_HOUR) / MS_PER_HOUR == earlier / MS_PER_HOUR + 24;
    }
  }

  /** Only the hour of the day matters: the answer is the same any whole number of days later. */
  lemma SameAnswerEveryDay(nowMs: int, days: nat, cfg: JsVal)
    ensures IsWithinWorkingHours(nowMs + days * MS_PER_DAY, cfg) == IsWithinWorkingHours(nowMs, cfg)
  {
    HourAfterDays(nowMs, days);
  }

  /**
   * A configuration merged by `loadConfig()` with no working-hour variables
   * set, from a file that does not set `startHour` or `endHour`, keeps the
   * defaults 0 and 24 and so is open at every hour.
   */
  lemma LoadedDefaultsAlwaysOpen(env: Env, file: JsVal, m: Config.Settings, cfg: JsVal, nowMs: int)
    requires Config.Merged(env, file, m)
    requires EnvStr(env, "ESCALATEX_START_HOUR") == "" && EnvStr(env, "ESCALATEX_END_HOUR") == ""
    requires var src := Config.WorkingHoursSource(file);
             !(src.Obj? && ("startHour" in src.props || "endHour" in src.props))
    requires cfg.Obj? && "workingHours" in cfg.props && cfg.props["workingHours"] == m.workingHours
    ensures IsWithinWorkingHours(nowMs, cfg) == Ok(true)
  {
    var wh := Config.DefaultWorkingHours(env);
    var src := Config.WorkingHoursSource(file);
    assert m.workingHours == Obj(Spread(wh, src));
    var merged := Spread(wh, src);
    assert "startHour" in wh && "endHour" in wh;
    assert merged["startHour"] == Num(0) && merged["endHour"] == Num(24);
    assert StartHour(cfg) == Num(0) && EndHour(cfg) == Num(24);
    WholeDayOpen(nowMs, cfg);
  }
}
