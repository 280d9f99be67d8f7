/** The validated records of the system and how raw input becomes one. `Normalize` is
    `PydanticWeather(**raw)`: each field resolves its alias paths in order (then its own name),
    coerces, range-checks, and then runs its after-validator (rounding, capitalisation). */
module Schemas {
  import opened Wrappers
  import opened Errors
  import opened Json
  import opened Numbers
  import opened Text
  import LocalityName

  // ---------------------------------------------------------------------------------------
  // Weather

  /** The six numeric fields of `to_average`. */
  datatype Field =
    | RealTemperature
    | FeelsLikeTemperature
    | AtmosphericPressure
    | WindSpeed
    | Cloudiness
    | Humidity

  const ToAverage: seq<Field> :=
    [RealTemperature, FeelsLikeTemperature, AtmosphericPressure, WindSpeed, Cloudiness, Humidity]

  function FieldName(f: Field): string
  {
    match f
    case RealTemperature => "real_temperature"
    case FeelsLikeTemperature => "feels_like_temperature"
    case AtmosphericPressure => "atmospheric_pressure"
    case WindSpeed => "wind_speed"
    case Cloudiness => "cloudiness"
    case Humidity => "humidity"
  }

  /** Where an AccuWeather current-conditions entry keeps the field. */
  function AccuWeatherPath(f: Field): Path
  {
    match f
    case RealTemperature => [Key("Temperature"), Key("Metric"), Key("Value")]
    case FeelsLikeTemperature => [Key("RealFeelTemperature"), Key("Metric"), Key("Value")]
    case AtmosphericPressure => [Key("Pressure"), Key("Metric"), Key("Value")]
    case WindSpeed => [Key("Wind"), Key("Speed"), Key("Metric"), Key("Value")]
    case Cloudiness => [Key("CloudCover")]
    case Humidity => [Key("RelativeHumidity")]
  }

  /** Where an OpenWeatherMap current-weather body keeps the field. */
  function OpenWeatherMapPath(f: Field): Path
  {
    match f
    case RealTemperature => [Key("main"), Key("temp")]
    case FeelsLikeTemperature => [Key("main"), Key("feels_like")]
    case AtmosphericPressure => [Key("main"), Key("pressure")]
    case WindSpeed => [Key("wind"), Key("speed")]
    case Cloudiness => [Key("clouds"), Key("all")]
    case Humidity => [Key("main"), Key("humidity")]
  }

  /** The validation aliases in declaration order, then the field's own name, which
      `populate_by_name` also accepts. */
  function Choices(f: Field): seq<Path>
  {
    [AccuWeatherPath(f), OpenWeatherMapPath(f), [Key(FieldName(f))]]
  }

  const SummaryChoices: seq<Path> :=
    [[Key("WeatherText")], [Key("weather"), Pos(0), Key("description")], [Key("summary")]]

  /** The first key of every validation alias. A dict holding none of them is read by field name. */
  const AliasKeys: set<string> :=
    {"WeatherText", "weather", "Temperature", "RealFeelTemperature", "Pressure", "Wind",
     "CloudCover", "RelativeHumidity", "main", "wind", "clouds"}

  /** The keys a serialised record uses: its field names. */
  const RecordKeys: set<string> :=
    {"service", "summary", "real_temperature", "feels_like_temperature", "atmospheric_pressure",
     "wind_speed", "cloudiness", "humidity"}

  lemma RecordKeysAreNotAliasKeys()
    ensures RecordKeys !! AliasKeys
  {
  }

  /** Cloudiness and humidity are percentages, bounded by `ge=0, le=100`. */
  predicate IsPercentage(f: Field)
  {
    f == Cloudiness || f == Humidity
  }

  datatype Weather = Weather(
    service: string,
    summary: Option<string>,
    realTemperature: real,
    feelsLikeTemperature: real,
    atmosphericPressure: real,
    windSpeed: real,
    cloudiness: real,
    humidity: real)

  function Get(w: Weather, f: Field): real
  {
    match f
    case RealTemperature => w.realTemperature
    case FeelsLikeTemperature => w.feelsLikeTemperature
    case AtmosphericPressure => w.atmosphericPressure
    case WindSpeed => w.windSpeed
    case Cloudiness => w.cloudiness
    case Humidity => w.humidity
  }

  /** What every validated record satisfies. */
  ghost predicate WellFormed(w: Weather)
  {
    && |w.service| >= 1
    && (w.summary.Some? ==> |w.summary.value| >= 1 && Capitalize(w.summary.value) == w.summary.value)
    && IsTenth(w.realTemperature) && IsTenth(w.feelsLikeTemperature) && IsTenth(w.atmosphericPressure)
    && IsTenth(w.windSpeed) && IsTenth(w.cloudiness) && IsTenth(w.humidity)
    && 0.0 <= w.cloudiness <= 100.0
    && 0.0 <= w.humidity <= 100.0
  }

  lemma WellFormedFields(w: Weather, f: Field)
    requires WellFormed(w)
    ensures IsTenth(Get(w, f))
  {
  }

  /** Lax-mode `float`: numbers, and booleans as 1.0 / 0.0. */
  function AsFloat(v: Json): Option<real>
  {
    match v
    case Num(x) => Some(x)
    case Bool(b) => Some(if b then 1.0 else 0.0)
    case _ => None
  }

  /** One numeric field: resolve, coerce, check the bounds on the value as extracted, then round. */
  function ValidateNumber(raw: Json, f: Field): (r: Result<real, Error>)
    ensures r.Ok? ==> IsTenth(r.value)
    ensures r.Ok? && IsPercentage(f) ==> 0.0 <= r.value <= 100.0
    ensures r.Err? ==> r.error == ValidationError
    ensures FirstResolved(raw, Choices(f)).None? ==> r == Err(ValidationError)
    ensures FirstResolved(raw, Choices(f)).Some? ==>
              match AsFloat(FirstResolved(raw, Choices(f)).value)
              case None => r == Err(ValidationError)
              case Some(x) => r == if IsPercentage(f) && !(0.0 <= x <= 100.0) then Err(ValidationError) else Ok(Round1(x))
  {
    match FirstResolved(raw, Choices(f))
    case None => Err(ValidationError)
    case Some(v) =>
      match AsFloat(v)
      case None => Err(ValidationError)
      case Some(x) =>
        if !IsPercentage(f) then Ok(Round1(x))
        else if 0.0 <= x <= 100.0 then
          Round1Within(0.0, 100.0, x);
          Ok(Round1(x))
        else Err(ValidationError)
  }

  /** The optional summary. Absent: the default `None`, no validator runs. Present: a non-empty
      string, capitalised. Present as JSON null: the after-validator calls `None.capitalize()`,
      whose AttributeError pydantic does not convert. */
  function ValidateSummary(raw: Json): (r: Result<Option<string>, Error>)
    ensures r.Ok? && r.value.Some? ==> |r.value.value| >= 1 && Capitalize(r.value.value) == r.value.value
    ensures r == Err(Unhandled(AttributeError)) <==> FirstResolved(raw, SummaryChoices) == Some(Null)
    ensures r.Err? ==> r.error in {ValidationError, Unhandled(AttributeError)}
  {
    match FirstResolved(raw, SummaryChoices)
    case None => Ok(None)
    case Some(Null) => Err(Unhandled(AttributeError))
    case Some(Str(s)) =>
      if |s| >= 1 then
        CapitalizeIdempotent(s);
        Ok(Some(Capitalize(s)))
      else Err(ValidationError)
    case Some(_) => Err(ValidationError)
  }

  /** `service`: a non-empty string, read by its own name. */
  function ValidateService(raw: map<string, Json>): (r: Result<string, Error>)
    ensures r.Ok? <==> "service" in raw && raw["service"].Str? && |raw["service"].s| >= 1
    ensures r.Ok? ==> raw["service"] == Str(r.value)
    ensures r.Err? ==> r.error == ValidationError
  {
    if "service" in raw && raw["service"].Str? && |raw["service"].s| >= 1 then Ok(raw["service"].s)
    else Err(ValidationError)
  }

  /** `PydanticWeather(**raw)`. Field errors are collected into one ValidationError; the
      AttributeError of a null summary escapes at once. */
  function Normalize(raw: map<string, Json>): (r: Result<Weather, Error>)
    ensures r.Ok? ==> WellFormed(r.value)
    ensures r.Ok? ==> "service" in raw && raw["service"] == Str(r.value.service)
    ensures r == Err(Unhandled(AttributeError)) <==> FirstResolved(Obj(raw), SummaryChoices) == Some(Null)
    ensures r.Err? ==> r.error in {ValidationError, Unhandled(AttributeError)}
  {
    var j := Obj(raw);
    var summary := ValidateSummary(j);
    if summary == Err(Unhandled(AttributeError)) then Err(Unhandled(AttributeError))
    else
      var service := ValidateService(raw);
      var t := ValidateNumber(j, RealTemperature);
      var fl := ValidateNumber(j, FeelsLikeTemperature);
      var p := ValidateNumber(j, AtmosphericPressure);
      var ws := ValidateNumber(j, WindSpeed);
      var c := ValidateNumber(j, Cloudiness);
      var h := ValidateNumber(j, Humidity);
      if summary.Ok? && service.Ok? && t.Ok? && fl.Ok? && p.Ok? && ws.Ok? && c.Ok? && h.Ok? then
        var w := Weather(service.value, summary.value, t.value, fl.value, p.value, ws.value, c.value, h.value);
        Ok(w)
      else Err(ValidationError)
  }

  /** A validated record is made of the field validators' results. */
  lemma NormalizeParts(raw: map<string, Json>, w: Weather)
    requires Normalize(raw) == Ok(w)
    ensures ValidateService(raw) == Ok(w.service)
    ensures ValidateSummary(Obj(raw)) == Ok(w.summary)
    ensures ValidateNumber(Obj(raw), RealTemperature) == Ok(w.realTemperature)
    ensures ValidateNumber(Obj(raw), FeelsLikeTemperature) == Ok(w.feelsLikeTemperature)
    ensures ValidateNumber(Obj(raw), AtmosphericPressure) == Ok(w.atmosphericPressure)
    ensures ValidateNumber(Obj(raw), WindSpeed) == Ok(w.windSpeed)
    ensures ValidateNumber(Obj(raw), Cloudiness) == Ok(w.cloudiness)
    ensures ValidateNumber(Obj(raw), Humidity) == Ok(w.humidity)
  {
    var j := Obj(raw);
    var summary := ValidateSummary(j);
    var service := ValidateService(raw);
    var t := ValidateNumber(j, RealTemperature);
    var fl := ValidateNumber(j, FeelsLikeTemperature);
    var p := ValidateNumber(j, AtmosphericPressure);
    var ws := ValidateNumber(j, WindSpeed);
    var c := ValidateNumber(j, Cloudiness);
    var h := ValidateNumber(j, Humidity);
    assert summary != Err(Unhandled(AttributeError));
    assert summary.Ok? && service.Ok? && t.Ok? && fl.Ok? && p.Ok? && ws.Ok? && c.Ok? && h.Ok?;
    assert w == Weather(service.value, summary.value, t.value, fl.value, p.value, ws.value, c.value, h.value);
  }

  /** Conversely, validators that all succeed make the record of their results. */
  lemma NormalizeFromParts(raw: map<string, Json>, w: Weather)
    requires ValidateService(raw) == Ok(w.service)
    requires ValidateSummary(Obj(raw)) == Ok(w.summary)
    requires ValidateNumber(Obj(raw), RealTemperature) == Ok(w.realTemperature)
    requires ValidateNumber(Obj(raw), FeelsLikeTemperature) == Ok(w.feelsLikeTemperature)
    requires ValidateNumber(Obj(raw), AtmosphericPressure) == Ok(w.atmosphericPressure)
    requires ValidateNumber(Obj(raw), WindSpeed) == Ok(w.windSpeed)
    requires ValidateNumber(Obj(raw), Cloudiness) == Ok(w.cloudiness)
    requires ValidateNumber(Obj(raw), Humidity) == Ok(w.humidity)
    ensures Normalize(raw) == Ok(w)
  {
  }

  /** A field of a validated record is the rounded value of the first of its paths that resolves:
      the AccuWeather path before the OpenWeatherMap path before the field's own name. */
  lemma ValueFromFirstResolvingPath(raw: map<string, Json>, f: Field, i: int, v: Json)
    requires ResolvesFirstAt(Obj(raw), Choices(f), i) && Lookup(Obj(raw), Choices(f)[i]) == Some(v)
    ensures Normalize(raw).Ok? ==> AsFloat(v).Some? && Get(Normalize(raw).value, f) == Round1(AsFloat(v).value)
  {
    if Normalize(raw).Ok? {
      assert Get(Normalize(raw).value, f) == ValidateNumber(Obj(raw), f).value;
    }
  }

  /** Example: `Temperature.Metric.Value` beats `main.temp`. */
  lemma AccuWeatherPathWins(raw: map<string, Json>, f: Field, x: real)
    requires Lookup(Obj(raw), AccuWeatherPath(f)) == Some(Num(x))
    ensures Normalize(raw).Ok? ==> Get(Normalize(raw).value, f) == Round1(x)
  {
    assert ResolvesFirstAt(Obj(raw), Choices(f), 0);
    ValueFromFirstResolvingPath(raw, f, 0, Num(x));
  }

  lemma OpenWeatherMapPathIsFallback(raw: map<string, Json>, f: Field, x: real)
    requires Lookup(Obj(raw), AccuWeatherPath(f)).None?
    requires Lookup(Obj(raw), OpenWeatherMapPath(f)) == Some(Num(x))
    ensures Normalize(raw).Ok? ==> Get(Normalize(raw).value, f) == Round1(x)
  {
    assert ResolvesFirstAt(Obj(raw), Choices(f), 1);
    ValueFromFirstResolvingPath(raw, f, 1, Num(x));
  }

  /** A numeric field none of whose paths resolves fails the record. */
  lemma MissingFieldFails(raw: map<string, Json>, f: Field)
    requires forall i :: 0 <= i < |Choices(f)| ==> Lookup(Obj(raw), Choices(f)[i]).None?
    ensures Normalize(raw).Err?
  {
    assert ValidateNumber(Obj(raw), f).Err?;
  }

  /** A missing summary is `None` and cannot by itself fail the record. */
  lemma MissingSummaryIsNone(raw: map<string, Json>)
    requires forall i :: 0 <= i < |SummaryChoices| ==> Lookup(Obj(raw), SummaryChoices[i]).None?
    ensures Normalize(raw).Ok? ==> Normalize(raw).value.summary.None?
    ensures Normalize(raw).Err? ==> Normalize(raw).error == ValidationError
  {
  }

  /** A present summary must be non-empty, and is stored capitalised. */
  lemma SummaryCapitalised(raw: map<string, Json>, s: string)
    requires FirstResolved(Obj(raw), SummaryChoices) == Some(Str(s))
    ensures |s| == 0 ==> Normalize(raw).Err?
    ensures Normalize(raw).Ok? ==> Normalize(raw).value.summary == Some(Capitalize(s))
  {
  }

  /** Cloudiness or humidity outside [0, 100] as extracted fails the record. */
  lemma PercentageOutOfRangeFails(raw: map<string, Json>, f: Field, v: Json)
    requires IsPercentage(f)
    requires FirstResolved(Obj(raw), Choices(f)) == Some(v)
    requires AsFloat(v).Some? && !(0.0 <= AsFloat(v).value <= 100.0)
    ensures Normalize(raw).Err?
  {
    assert ValidateNumber(Obj(raw), f).Err?;
  }

  /** The bound is checked before rounding: a humidity of 100.04 fails, although it would round to 100.0. */
  lemma BoundPrecedesRounding(raw: map<string, Json>)
    requires FirstResolved(Obj(raw), Choices(Humidity)) == Some(Num(100.04))
    ensures Normalize(raw).Err?
    ensures Round1(100.04) == 100.0
  {
    PercentageOutOfRangeFails(raw, Humidity, Num(100.04));
    RoundHalfEvenUnique(1000.4, 1000);
  }

  /** In a dict without alias keys every field is read by its own name. */
  lemma ByName(raw: map<string, Json>, f: Field)
    requires raw.Keys !! AliasKeys
    ensures FirstResolved(Obj(raw), Choices(f)) == Lookup(Obj(raw), [Key(FieldName(f))])
    ensures FirstResolved(Obj(raw), SummaryChoices) == Lookup(Obj(raw), [Key("summary")])
  {
    var j := Obj(raw);
    assert Lookup(j, AccuWeatherPath(f)).None?;
    assert Lookup(j, OpenWeatherMapPath(f)).None?;
    if Lookup(j, [Key(FieldName(f))]).Some? {
      assert ResolvesFirstAt(j, Choices(f), 2);
    }
    assert Lookup(j, SummaryChoices[0]).None?;
    assert Lookup(j, SummaryChoices[1]).None?;
    if Lookup(j, [Key("summary")]).Some? {
      assert ResolvesFirstAt(j, SummaryChoices, 2);
    }
  }

  /** `weather.to_dict(exclude_none=True)`: keys are field names; an absent summary has no key. */
  function WeatherToDict(w: Weather): (d: map<string, Json>)
    ensures d.Keys <= RecordKeys
    ensures "summary" in d <==> w.summary.Some?
    ensures "service" in d && d["service"] == Str(w.service)
    ensures forall f :: FieldName(f) in d && d[FieldName(f)] == Num(Get(w, f))
  {
    var d := map[
      "service" := Str(w.service),
      "real_temperature" := Num(w.realTemperature),
      "feels_like_temperature" := Num(w.feelsLikeTemperature),
      "atmospheric_pressure" := Num(w.atmosphericPressure),
      "wind_speed" := Num(w.windSpeed),
      "cloudiness" := Num(w.cloudiness),
      "humidity" := Num(w.humidity)];
    if w.summary.Some? then d["summary" := Str(w.summary.value)] else d
  }

  /** In a dict without alias keys, a numeric field is validated from the entry under its name. */
  lemma NumberByName(d: map<string, Json>, f: Field, x: real)
    requires d.Keys !! AliasKeys
    requires FieldName(f) in d && d[FieldName(f)] == Num(x)
    ensures ValidateNumber(Obj(d), f) ==
              if IsPercentage(f) && !(0.0 <= x <= 100.0) then Err(ValidationError) else Ok(Round1(x))
  {
    ByName(d, f);
  }

  /** A value already on the tenths grid comes back unchanged. */
  lemma TenthByName(d: map<string, Json>, f: Field, x: real)
    requires d.Keys !! AliasKeys
    requires FieldName(f) in d && d[FieldName(f)] == Num(x)
    requires IsTenth(x) && (IsPercentage(f) ==> 0.0 <= x <= 100.0)
    ensures ValidateNumber(Obj(d), f) == Ok(x)
  {
    NumberByName(d, f, x);
    Round1Fixed(x);
  }

  /** Cloudiness and humidity within [0, 100]. */
  predicate InRange(w: Weather)
  {
    0.0 <= w.cloudiness <= 100.0 && 0.0 <= w.humidity <= 100.0
  }

  /** Each number of a well-formed record is validated back from its dict unchanged. */
  lemma DictNumber(w: Weather, f: Field)
    requires WellFormed(w)
    ensures ValidateNumber(Obj(WeatherToDict(w)), f) == Ok(Get(w, f))
  {
    RecordKeysAreNotAliasKeys();
    WellFormedFields(w, f);
    TenthByName(WeatherToDict(w), f, Get(w, f));
  }

  /** The label and the summary of a well-formed record are validated back unchanged. */
  lemma DictSummaryService(w: Weather)
    requires WellFormed(w)
    ensures ValidateSummary(Obj(WeatherToDict(w))) == Ok(w.summary)
    ensures ValidateService(WeatherToDict(w)) == Ok(w.service)
  {
    RecordKeysAreNotAliasKeys();
    ByName(WeatherToDict(w), RealTemperature);
  }

  /** The temperatures and the pressure of a well-formed record come back from its dict. */
  lemma DictMeasurements(w: Weather)
    requires WellFormed(w)
    ensures ValidateNumber(Obj(WeatherToDict(w)), RealTemperature) == Ok(w.realTemperature)
    ensures ValidateNumber(Obj(WeatherToDict(w)), FeelsLikeTemperature) == Ok(w.feelsLikeTemperature)
    ensures ValidateNumber(Obj(WeatherToDict(w)), AtmosphericPressure) == Ok(w.atmosphericPressure)
  {
    DictNumber(w, RealTemperature);
    DictNumber(w, FeelsLikeTemperature);
    DictNumber(w, AtmosphericPressure);
  }

  /** The wind speed and the percentages of a well-formed record come back from its dict. */
  lemma DictRates(w: Weather)
    requires WellFormed(w)
    ensures ValidateNumber(Obj(WeatherToDict(w)), WindSpeed) == Ok(w.windSpeed)
    ensures ValidateNumber(Obj(WeatherToDict(w)), Cloudiness) == Ok(w.cloudiness)
    ensures ValidateNumber(Obj(WeatherToDict(w)), Humidity) == Ok(w.humidity)
  {
    DictNumber(w, WindSpeed);
    DictNumber(w, Cloudiness);
    DictNumber(w, Humidity);
  }

  /** A validated record survives serialisation: validating its dict gives it back. */
  lemma WeatherDictRoundTrip(w: Weather)
    requires WellFormed(w)
    ensures Normalize(WeatherToDict(w)) == Ok(w)
  {
    DictMeasurements(w);
    DictRates(w);
    DictSummaryService(w);
    NormalizeFromParts(WeatherToDict(w), w);
  }

  // ---------------------------------------------------------------------------------------
  // Users and localities

  datatype User = User(id: int, firstName: string)

  /** `PydanticUser`: the first name has between 1 and 64 characters. */
  function ValidateUser(id: int, firstName: string): (r: Result<User, Error>)
    ensures r.Ok? <==> 1 <= |firstName| <= 64
    ensures r.Ok? ==> r.value.id == id && r.value.firstName == firstName
    ensures r.Err? ==> r.error == ValidationError
  {
    if 1 <= |firstName| <= 64 then Ok(User(id, firstName)) else Err(ValidationError)
  }

  datatype Locality = Locality(name: string, userId: int)

  /** `PydanticLocality(user_id=..., name=text)`: the text must exist and contain a locality
      name running to its end. */
  function ValidateLocality(userId: int, text: Option<string>): (r: Result<Locality, Error>)
    ensures r.Ok? <==> text.Some? && LocalityName.Matches(text.value)
    ensures r.Ok? ==> r.value.name == text.value && r.value.userId == userId
    ensures r.Err? ==> r.error == ValidationError
  {
    match text
    case None => Err(ValidationError)
    case Some(name) =>
      LocalityName.ValidIsMatches(name);
      if LocalityName.Valid(name) then Ok(Locality(name, userId)) else Err(ValidationError)
  }

  // ---------------------------------------------------------------------------------------
  // History records and their serialisation

  /** A persisted comparison. `id` and `timestamp` are `None` until the store assigns them. */
  datatype HistoryRecord = HistoryRecord(
    userId: int,
    id: Option<nat>,
    locality: string,
    weather: seq<map<string, Json>>,
    timestamp: Option<int>)

  /** The key of a history query. */
  datatype HistoryQuery = HistoryQuery(userId: int)

  /** A value as handed to the store. */
  datatype Value = IntV(i: int) | TextV(s: string) | DictsV(ds: seq<map<string, Json>>) | NoneV

  /** A `model_dump`: (field, value) pairs in field-declaration order. */
  type Dict = seq<(string, Value)>

  function UserToDict(u: User): Dict
  {
    [("id", IntV(u.id)), ("first_name", TextV(u.firstName))]
  }

  function QueryToDict(q: HistoryQuery): Dict
  {
    [("user_id", IntV(q.userId))]
  }

  function OptionalNat(o: Option<nat>): Value
  {
    match o
    case None => NoneV
    case Some(n) => IntV(n)
  }

  function OptionalInt(o: Option<int>): Value
  {
    match o
    case None => NoneV
    case Some(n) => IntV(n)
  }

  /** The entries of `d` whose value is not `None`, in order. */
  function ExcludeNone(d: Dict): (r: Dict)
    ensures |r| <= |d|
    ensures forall i :: 0 <= i < |r| ==> r[i].1 != NoneV
    ensures (forall i :: 0 <= i < |d| ==> d[i].1 != NoneV) ==> r == d
  {
    if d == [] then []
    else if d[0].1 == NoneV then ExcludeNone(d[1..])
    else [d[0]] + ExcludeNone(d[1..])
  }

  /** Excluding `None` works entry by entry, so the kept entries stay in their order. */
  lemma {:induction false} ExcludeNoneConcat(a: Dict, b: Dict)
    ensures ExcludeNone(a + b) == ExcludeNone(a) + ExcludeNone(b)
  {
    if a != [] {
      assert (a + b)[0] == a[0];
      assert (a + b)[1..] == a[1..] + b;
      ExcludeNoneConcat(a[1..], b);
    } else {
      assert a + b == b;
    }
  }

  /** Exactly the entries whose value is not `None` are kept. */
  lemma {:induction false} ExcludeNoneKeeps(d: Dict, e: (string, Value))
    ensures e in ExcludeNone(d) <==> e in d && e.1 != NoneV
  {
    if d != [] {
      assert e in d <==> e == d[0] || e in d[1..];
      ExcludeNoneKeeps(d[1..], e);
    }
  }

  /** `PydanticHistoryRecord.to_dict(...)`; the field order is user_id, id, locality, weather, timestamp. */
  function HistoryToDict(h: HistoryRecord, excludeNone: bool): Dict
  {
    var all := [
      ("user_id", IntV(h.userId)),
      ("id", OptionalNat(h.id)),
      ("locality", TextV(h.locality)),
      ("weather", DictsV(h.weather)),
      ("timestamp", OptionalInt(h.timestamp))];
    if excludeNone then ExcludeNone(all) else all
  }

  /** `to_tuple`: the values of `to_dict`, in field order. */
  function ToTuple(d: Dict): (t: seq<Value>)
    ensures |t| == |d|
    ensures forall i :: 0 <= i < |d| ==> t[i] == d[i].1
  {
    if d == [] then [] else [d[0].1] + ToTuple(d[1..])
  }

  /** A user becomes the row `(id, first_name)`, the column order of `users`. */
  lemma UserTuple(u: User)
    ensures ToTuple(UserToDict(u)) == [IntV(u.id), TextV(u.firstName)]
  {
  }

  /** A record the store has not yet numbered becomes `(user_id, locality, weather)`: the columns
      its insert names, since `id` and `timestamp` are `None` and excluded. */
  lemma {:induction false} NewRecordTuple(h: HistoryRecord)
    requires h.id.None? && h.timestamp.None?
    ensures ToTuple(HistoryToDict(h, true)) == [IntV(h.userId), TextV(h.locality), DictsV(h.weather)]
  {
    var all := [
      ("user_id", IntV(h.userId)),
      ("id", NoneV),
      ("locality", TextV(h.locality)),
      ("weather", DictsV(h.weather)),
      ("timestamp", NoneV)];
    assert ExcludeNone(all[4..]) == [] by {
      assert all[4..][1..] == [];
    }
    assert ExcludeNone(all[3..]) == [all[3]] by {
      assert all[3..][1..] == all[4..];
    }
    assert ExcludeNone(all[2..]) == [all[2], all[3]] by {
      assert all[2..][1..] == all[3..];
    }
    assert ExcludeNone(all[1..]) == [all[2], all[3]] by {
      assert all[1..][1..] == all[2..];
    }
    assert ExcludeNone(all) == [all[0], all[2], all[3]];
  }

  /** A query becomes `(user_id,)`. */
  lemma QueryTuple(q: HistoryQuery)
    ensures ToTuple(QueryToDict(q)) == [IntV(q.userId)]
  {
  }
}
