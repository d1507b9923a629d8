/**
 * Provider configuration: built-in defaults read from the environment, a
 * configuration file in either the new nested shape or the legacy flat
 * shape, and the merge in which the environment wins over the file and the
 * file over the defaults.  Reading and parsing the file is I/O: the parsed
 * file (or null) is a parameter.
 */
module Config {
  import opened Wrappers
  import opened JsValue

  /** `process.env[key] || default` as a value. */
  function EnvOrStr(env: Env, key: string, default: string): (v: JsVal)
    ensures v.Str?
    ensures EnvStr(env, key) != "" ==> v == Str(env[key])
    ensures EnvStr(env, key) == "" ==> v == Str(default)
  {
    Or(EnvVal(env, key), Str(default))
  }

  /** The default `workingHours` object. */
  function DefaultWorkingHours(env: Env): (wh: map<string, JsVal>)
    ensures wh.Keys == {"start", "end", "days", "startHour", "endHour"}
    ensures EnvStr(env, "ESCALATEX_START_HOUR") == "" ==> wh["startHour"] == Num(0)
    ensures EnvStr(env, "ESCALATEX_END_HOUR") == "" ==> wh["endHour"] == Num(24)
  {
    map[
      "start" := EnvOrStr(env, "ESCALATEX_START", "09:00"),
      "end" := EnvOrStr(env, "ESCALATEX_END", "18:00"),
      "days" := Arr([Num(1), Num(2), Num(3), Num(4), Num(5)]),
      "startHour" := ToNumber(Or(EnvVal(env, "ESCALATEX_START_HOUR"), Num(0))),
      "endHour" := ToNumber(Or(EnvVal(env, "ESCALATEX_END_HOUR"), Num(24)))]
  }

  function Tier(key: string, labelText: string, priceUsd: string, whatYouGet: string): JsVal {
    Obj(map["key" := Str(key), "label" := Str(labelText), "priceUsd" := Str(priceUsd), "whatYouGet" := Str(whatYouGet)])
  }

  /** The three built-in tiers. */
  const DEFAULT_TIERS: seq<JsVal> := [
    Tier("24h", "24h response", "10", "Priority review + response within 24h."),
    Tier("2h", "2h response", "50", "Priority review + response within 2h."),
    Tier("15m", "15m interrupt", "200", "Interrupt tier. You jump the queue (best-effort).")]

  /**
   * A merged configuration object: one field per key the defaults define,
   * and `extra` for any other key a legacy file brings along.
   */
  datatype Settings = Settings(
    handle: JsVal,
    displayName: JsVal,
    timezone: JsVal,
    workingHours: JsVal,
    tiers: JsVal,
    minPaymentUsd: JsVal,
    maxOpenRequests: JsVal,
    extra: map<string, JsVal>)

  /** The keys `DEFAULT` defines. */
  predicate Known(k: string) {
    k == "handle" || k == "displayName" || k == "timezone" || k == "workingHours" || k == "tiers"
    || k == "minPaymentUsd" || k == "maxOpenRequests"
  }

  /** `DEFAULT`: every field but the tiers and the working days can be set through the environment. */
  function DefaultConfig(env: Env): (d: Settings)
    ensures d.tiers == Arr(DEFAULT_TIERS) && d.extra == map[]
    ensures EnvStr(env, "ESCALATEX_MAX_OPEN") == "" ==> d.maxOpenRequests == Num(5)
  {
    Settings(
      EnvOrStr(env, "ESCALATEX_HANDLE", "neojack"),
      EnvOrStr(env, "ESCALATEX_DISPLAY_NAME", "Neojack"),
      EnvOrStr(env, "ESCALATEX_TZ", "UTC"),
      Obj(DefaultWorkingHours(env)),
      Arr(DEFAULT_TIERS),
      EnvOrStr(env, "ESCALATEX_MIN_USD", "10"),
      ToNumber(Or(EnvVal(env, "ESCALATEX_MAX_OPEN"), Num(5))),
      map[])
  }

  /** A file in the new shape has a `provider`, `availability` or `limits` section, or an array of tiers. */
  predicate IsNewStyle(file: JsVal) {
    Truthy(Get(file, "provider")) || Truthy(Get(file, "availability")) || Truthy(Get(file, "limits"))
    || Get(file, "tiers").Arr?
  }

  /**
   * A new-shape tier in the legacy shape: id `interrupt` becomes key `15m`,
   * other ids are kept; the price is `String(amount_usdc)`; the description
   * is `what_you_get`, else `whatYouGet`.
   */
  function NormalizeTier(t: JsVal): (r: JsVal)
    requires !t.Undefined? && !t.Null?
    ensures r.Obj? && r.props.Keys == {"key", "label", "priceUsd", "whatYouGet"}
    ensures Get(t, "id") == Str("interrupt") ==> r.props["key"] == Str("15m")
    ensures Get(t, "id") != Str("interrupt") ==> r.props["key"] == Get(t, "id")
    ensures r.props["label"] == Get(t, "label")
    ensures r.props["priceUsd"] == Str(ToStr(Get(t, "amount_usdc")))
    ensures Truthy(Get(t, "what_you_get")) ==> r.props["whatYouGet"] == Get(t, "what_you_get")
    ensures !Truthy(Get(t, "what_you_get")) ==> r.props["whatYouGet"] == Get(t, "whatYouGet")
  {
    var id := Get(t, "id");
    Obj(map[
      "key" := if id == Str("interrupt") then Str("15m") else id,
      "label" := Get(t, "label"),
      "priceUsd" := Str(ToStr(Get(t, "amount_usdc"))),
      "whatYouGet" := Or(Get(t, "what_you_get"), Get(t, "whatYouGet"))])
  }

  /** `file.tiers.map(...)`: reading `t.id` of a null or undefined tier throws. */
  function NormalizeTiers(ts: seq<JsVal>): (r: Result<seq<JsVal>, string>)
    ensures r.Ok? <==> forall i :: 0 <= i < |ts| ==> !ts[i].Undefined? && !ts[i].Null?
    ensures r.Ok? ==> |r.value| == |ts| && forall i :: 0 <= i < |ts| ==> r.value[i] == NormalizeTier(ts[i])
  {
    if exists i :: 0 <= i < |ts| && (ts[i].Undefined? || ts[i].Null?) then
      Err("TypeError: Cannot read properties of a missing tier")
    else
      Ok(seq(|ts|, i requires 0 <= i < |ts| => NormalizeTier(ts[i])))
  }

  /**
   * `normalizeFromFile(file)`: null for a falsy file; a new-shape file is
   * mapped to the legacy shape; any other file is returned unchanged.
   */
  function NormalizeFromFile(file: JsVal): (r: Result<JsVal, string>)
    ensures !Truthy(file) ==> r == Ok(Null)
    ensures Truthy(file) && !IsNewStyle(file) ==> r == Ok(file)
    ensures r.Err? <==> Truthy(file) && IsNewStyle(file) && Get(file, "tiers").Arr? && NormalizeTiers(Get(file, "tiers").elems).Err?
    ensures Truthy(file) && IsNewStyle(file) && r.Ok? ==>
              r.value.Obj?
              && r.value.props.Keys == {"handle", "displayName", "timezone", "workingHours", "tiers", "maxOpenRequests"}
              && r.value.props["handle"] == Get(Get(file, "provider"), "handle")
              && r.value.props["displayName"] == Get(Get(file, "provider"), "display_name")
              && r.value.props["timezone"] == Get(Get(file, "provider"), "timezone")
              && r.value.props["maxOpenRequests"] == Get(Get(file, "limits"), "max_open_requests")
              && (Truthy(Get(file, "availability")) ==>
                    r.value.props["workingHours"] == Obj(map["days" := Get(Get(file, "availability"), "days"),
                                                             "start" := Get(Get(file, "availability"), "start"),
                                                             "end" := Get(Get(file, "availability"), "end")]))
              && (!Truthy(Get(file, "availability")) ==> r.value.props["workingHours"] == Null)
              && (Get(file, "tiers").Arr? ==> r.value.props["tiers"] == Arr(NormalizeTiers(Get(file, "tiers").elems).value))
              && (!Get(file, "tiers").Arr? ==> r.value.props["tiers"] == Null)
  {
    if !Truthy(file) then Ok(Null)
    else if !IsNewStyle(file) then Ok(file)
    else
      var provider := Get(file, "provider");
      var availability := Get(file, "availability");
      var workingHours :=
        if Truthy(availability) then
          Obj(map["days" := Get(availability, "days"), "start" := Get(availability, "start"), "end" := Get(availability, "end")])
        else Null;
      var tiers: Result<JsVal, string> :=
        if Get(file, "tiers").Arr? then
          match NormalizeTiers(Get(file, "tiers").elems)
          case Ok(ts) => Ok(Arr(ts))
          case Err(e) => Err(e)
        else Ok(Null);
      match tiers
      case Err(e) => Err(e)
      case Ok(ts) =>
        Ok(Obj(map[
          "handle" := Get(provider, "handle"),
          "displayName" := Get(provider, "display_name"),
          "timezone" := Get(provider, "timezone"),
          "workingHours" := workingHours,
          "tiers" := ts,
          "maxOpenRequests" := Get(Get(file, "limits"), "max_open_requests")]))
  }

  /**
   * A new-shape file without a `provider` section still sets `handle` (to
   * undefined), so the merge below replaces the default handle with
   * undefined unless the environment names one.
   */
  lemma NewStyleWithoutProviderClearsHandle(file: JsVal)
    requires file.Obj? && "provider" !in file.props && Get(file, "tiers") == Arr([])
    ensures NormalizeFromFile(file) == Ok(Obj(NormalizeFromFile(file).value.props))
    ensures "handle" in NormalizeFromFile(file).value.props
    ensures NormalizeFromFile(file).value.props["handle"] == Undefined
  {
  }

  /** The value a key takes in `{ ...defaults, ...file }`. */
  function FileOr(file: JsVal, key: string, default: JsVal): (v: JsVal)
    ensures file.Obj? && key in file.props ==> v == file.props[key]
    ensures !(file.Obj? && key in file.props) ==> v == default
  {
    if file.Obj? && key in file.props then file.props[key] else default
  }

  /** The keys of an object file beyond the known ones. */
  function ExtraKeys(file: JsVal): (m: map<string, JsVal>)
    ensures forall k :: k in m <==> file.Obj? && k in file.props && !Known(k)
    ensures forall k :: k in m ==> m[k] == file.props[k]
  {
    if file.Obj? then map k | k in file.props && !Known(k) :: file.props[k] else map[]
  }

  /** `{ ...DEFAULT, ...(file || {}) }`: an object file's own properties overwrite the defaults. */
  function SpreadFile(d: Settings, file: JsVal): (m: Settings)
    requires d.extra == map[]
    ensures m.extra == ExtraKeys(file)
  {
    Settings(
      FileOr(file, "handle", d.handle),
      FileOr(file, "displayName", d.displayName),
      FileOr(file, "timezone", d.timezone),
      FileOr(file, "workingHours", d.workingHours),
      FileOr(file, "tiers", d.tiers),
      FileOr(file, "minPaymentUsd", d.minPaymentUsd),
      FileOr(file, "maxOpenRequests", d.maxOpenRequests),
      ExtraKeys(file))
  }

  /** `file?.workingHours || file?.working_hours || file?.availability || {}`. */
  function WorkingHoursSource(file: JsVal): JsVal {
    Or(Get(file, "workingHours"), Or(Get(file, "working_hours"), Or(Get(file, "availability"), Obj(map[]))))
  }

  /**
   * What the merge promises about a normalized file: identity fields come
   * from the environment, else the file, else the defaults; `workingHours`
   * is the default object overlaid by the file's; `maxOpenRequests` is the
   * environment's, else the merged one, else 5; missing or empty tiers are
   * replaced by the defaults; `minPaymentUsd` and every other key are the
   * file's, else the default's.
   */
  predicate Merged(env: Env, file: JsVal, m: Settings) {
    && (EnvStr(env, "ESCALATEX_HANDLE") != "" ==> m.handle == Str(env["ESCALATEX_HANDLE"]))
    && (EnvStr(env, "ESCALATEX_HANDLE") == "" ==> m.handle == FileOr(file, "handle", Str("neojack")))
    && (EnvStr(env, "ESCALATEX_DISPLAY_NAME") != "" ==> m.displayName == Str(env["ESCALATEX_DISPLAY_NAME"]))
    && (EnvStr(env, "ESCALATEX_DISPLAY_NAME") == "" ==> m.displayName == FileOr(file, "displayName", Str("Neojack")))
    && (EnvStr(env, "ESCALATEX_TZ") != "" ==> m.timezone == Str(env["ESCALATEX_TZ"]))
    && (EnvStr(env, "ESCALATEX_TZ") == "" ==> m.timezone == FileOr(file, "timezone", Str("UTC")))
    && m.workingHours == Obj(Spread(DefaultWorkingHours(env), WorkingHoursSource(file)))
    && (EnvStr(env, "ESCALATEX_MAX_OPEN") != "" ==> m.maxOpenRequests == ToNumber(Str(env["ESCALATEX_MAX_OPEN"])))
    && (EnvStr(env, "ESCALATEX_MAX_OPEN") == "" && Truthy(FileOr(file, "maxOpenRequests", Num(5))) ==>
          m.maxOpenRequests == ToNumber(FileOr(file, "maxOpenRequests", Num(5))))
    && (EnvStr(env, "ESCALATEX_MAX_OPEN") == "" && !Truthy(FileOr(file, "maxOpenRequests", Num(5))) ==>
          m.maxOpenRequests == Num(5))
    && m.tiers.Arr? && |m.tiers.elems| > 0
    && (var tiers := FileOr(file, "tiers", Arr(DEFAULT_TIERS));
        && (tiers.Arr? && |tiers.elems| > 0 ==> m.tiers == tiers)
        && (!(tiers.Arr? && |tiers.elems| > 0) ==> m.tiers == Arr(DEFAULT_TIERS)))
    && m.minPaymentUsd == FileOr(file, "minPaymentUsd", EnvOrStr(env, "ESCALATEX_MIN_USD", "10"))
    && m.extra == ExtraKeys(file)
  }

  /** `file || {}` spreads the same keys as the file itself. */
  lemma SpreadFalsyFile(d: Settings, file: JsVal)
    requires d.extra == map[]
    ensures SpreadFile(d, Or(file, Obj(map[]))) == SpreadFile(d, file)
  {
    if !Truthy(file) {
      assert !file.Obj?;
    }
  }

  /** `process.env[key] || current`: a set variable wins. */
  lemma EnvWins(env: Env, key: string, current: JsVal)
    ensures EnvStr(env, key) != "" ==> Or(EnvVal(env, key), current) == Str(env[key])
    ensures EnvStr(env, key) == "" ==> Or(EnvVal(env, key), current) == current
  {
  }

  /** `Number(process.env.ESCALATEX_MAX_OPEN || merged || DEFAULT.maxOpenRequests)`. */
  lemma MaxOpenRule(env: Env, fromFile: JsVal, default: JsVal)
    requires EnvStr(env, "ESCALATEX_MAX_OPEN") == "" ==> default == Num(5)
    ensures var v := ToNumber(Or(EnvVal(env, "ESCALATEX_MAX_OPEN"), Or(fromFile, default)));
            && (EnvStr(env, "ESCALATEX_MAX_OPEN") != "" ==> v == ToNumber(Str(env["ESCALATEX_MAX_OPEN"])))
            && (EnvStr(env, "ESCALATEX_MAX_OPEN") == "" && Truthy(fromFile) ==> v == ToNumber(fromFile))
            && (EnvStr(env, "ESCALATEX_MAX_OPEN") == "" && !Truthy(fromFile) ==> v == Num(5))
  {
    EnvWins(env, "ESCALATEX_MAX_OPEN", Or(fromFile, default));
  }

  /** Lines 89 to 101 of `loadConfig()`: the merge, applied step by step to a normalized file. */
  method MergeConfig(env: Env, file: JsVal) returns (merged: Settings)
    ensures Merged(env, file, merged)
  {
    var defaults := DefaultConfig(env);
    merged := SpreadFile(defaults, Or(file, Obj(map[])));
    SpreadFalsyFile(defaults, file);
    var spread := SpreadFile(defaults, file);
    assert merged == spread;
    merged := merged.(workingHours := Obj(Spread(DefaultWorkingHours(env), WorkingHoursSource(file))));
    // the environment always wins for the provider's identity
    merged := merged.(handle := Or(EnvVal(env, "ESCALATEX_HANDLE"), merged.handle));
    EnvWins(env, "ESCALATEX_HANDLE", spread.handle);
    merged := merged.(displayName := Or(EnvVal(env, "ESCALATEX_DISPLAY_NAME"), merged.displayName));
    EnvWins(env, "ESCALATEX_DISPLAY_NAME", spread.displayName);
    merged := merged.(timezone := Or(EnvVal(env, "ESCALATEX_TZ"), merged.timezone));
    EnvWins(env, "ESCALATEX_TZ", spread.timezone);
    merged := merged.(maxOpenRequests :=
      ToNumber(Or(EnvVal(env, "ESCALATEX_MAX_OPEN"), Or(merged.maxOpenRequests, defaults.maxOpenRequests))));
    MaxOpenRule(env, spread.maxOpenRequests, defaults.maxOpenRequests);
    if !merged.tiers.Arr? || |merged.tiers.elems| == 0 {
      merged := merged.(tiers := defaults.tiers);
    }
  }

  /** `loadConfig()` with the environment and the parsed file (null when absent or unreadable) as parameters. */
  method LoadConfig(env: Env, fileRaw: JsVal) returns (r: Result<Settings, string>)
    ensures r.Err? <==> NormalizeFromFile(fileRaw).Err?
    ensures r.Ok? ==> Merged(env, NormalizeFromFile(fileRaw).value, r.value)
  {
    var normalized := NormalizeFromFile(fileRaw);
    if normalized.Err? {
      return Err(normalized.error);
    }
    var merged := MergeConfig(env, normalized.value);
    return Ok(merged);
  }
}
